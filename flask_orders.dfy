/**
 * The order records of the second backend, where a user's cart is an
 * order still in status "pending".  An order belongs to one user and owns
 * its items; an item is keyed by its order and its product, so an order
 * holds at most one item per product.  Prices are floats there; here they
 * are abstract integers.
 */
module FlaskOrders {
  import opened Wrappers

  /** The two statuses the routes ever write; a new order starts as pending. */
  datatype Status = Pending | Completed

  /** A catalog row as the order routes read it. */
  datatype CatalogProduct = CatalogProduct(id: int, name: string, price: int)

  /** An order row; `userId` is required. */
  datatype CartOrder = CartOrder(id: int, userId: int, date: int, status: Status)

  /** An item row, keyed by `(orderId, productId)`. */
  datatype CartItem = CartItem(orderId: int, productId: int, quantity: int)

  /** The serialized item: the product is absent when its row no longer exists. */
  datatype ItemView = ItemView(orderId: int, productId: int, quantity: int, product: Option<CatalogProduct>)

  /** The serialized order with its items. */
  datatype OrderView = OrderView(id: int, userId: int, date: int, status: Status, items: seq<ItemView>)

  /** A new order: status pending unless told otherwise. */
  function NewOrder(id: int, userId: int, date: int): (o: CartOrder)
    ensures o.status == Pending && o.id == id && o.userId == userId
  {
    CartOrder(id, userId, date, Pending)
  }

  // ---------------------------------------------------------------------
  // Lookups

  /** The first catalog row with this id. */
  function FindProduct(products: seq<CatalogProduct>, id: int): (r: Option<CatalogProduct>)
    ensures r.Some? ==> r.value.id == id && r.value in products
    ensures r.None? <==> forall k :: 0 <= k < |products| ==> products[k].id != id
    decreases |products|
  {
    if products == [] then None
    else if products[0].id == id then Some(products[0])
    else
      assert forall k :: 1 <= k < |products| ==> products[k] == products[1..][k - 1];
      FindProduct(products[1..], id)
  }

  predicate IsPendingOf(o: CartOrder, userId: int) {
    o.userId == userId && o.status == Pending
  }

  /** `Order.query.filter_by(user_id=..., status='pending').first()`, in table order. */
  function FindPending(orders: seq<CartOrder>, userId: int): (r: Option<nat>)
    ensures r.Some? ==> r.value < |orders| && IsPendingOf(orders[r.value], userId)
    ensures r.Some? ==> forall k :: 0 <= k < r.value ==> !IsPendingOf(orders[k], userId)
    ensures r.None? <==> forall k :: 0 <= k < |orders| ==> !IsPendingOf(orders[k], userId)
    decreases |orders|
  {
    if orders == [] then None
    else if IsPendingOf(orders[0], userId) then Some(0)
    else
      assert forall k :: 1 <= k < |orders| ==> orders[k] == orders[1..][k - 1];
      match FindPending(orders[1..], userId)
      case None => None
      case Some(i) => Some(i + 1)
  }

  predicate IsItem(it: CartItem, orderId: int, productId: int) {
    it.orderId == orderId && it.productId == productId
  }

  /** `OrderItem.query.filter_by(order_id=..., product_id=...).first()`. */
  function FindItem(items: seq<CartItem>, orderId: int, productId: int): (r: Option<nat>)
    ensures r.Some? ==> r.value < |items| && IsItem(items[r.value], orderId, productId)
    ensures r.None? <==> forall k :: 0 <= k < |items| ==> !IsItem(items[k], orderId, productId)
    decreases |items|
  {
    if items == [] then None
    else if IsItem(items[0], orderId, productId) then Some(0)
    else
      assert forall k :: 1 <= k < |items| ==> items[k] == items[1..][k - 1];
      match FindItem(items[1..], orderId, productId)
      case None => None
      case Some(i) => Some(i + 1)
  }

  /** The `items` relationship of an order: its item rows, in table order. */
  function ItemsOf(items: seq<CartItem>, orderId: int): seq<CartItem>
    decreases |items|
  {
    if items == [] then []
    else ItemsOf(items[..|items| - 1], orderId) + (if items[|items| - 1].orderId == orderId then [items[|items| - 1]] else [])
  }

  /** An order's items are exactly the item rows that name it. */
  lemma {:induction false} ItemsOfMembers(items: seq<CartItem>, orderId: int)
    ensures forall it :: it in ItemsOf(items, orderId) <==> it in items && it.orderId == orderId
    decreases |items|
  {
    if items != [] {
      var init := items[..|items| - 1];
      assert items == init + [items[|items| - 1]];
      ItemsOfMembers(init, orderId);
    }
  }

  // ---------------------------------------------------------------------
  // Table constraints

  predicate UniqueOrderIds(orders: seq<CartOrder>) {
    forall i, j :: 0 <= i < j < |orders| ==> orders[i].id != orders[j].id
  }

  /** The composite primary key of the item table. */
  predicate ItemKeysUnique(items: seq<CartItem>) {
    forall i, j :: 0 <= i < j < |items| ==>
      items[i].orderId != items[j].orderId || items[i].productId != items[j].productId
  }

  function OrderIds(orders: seq<CartOrder>): set<int> {
    set k | 0 <= k < |orders| :: orders[k].id
  }

  /** Every item belongs to an existing order. */
  predicate ItemsHaveOrders(items: seq<CartItem>, orders: seq<CartOrder>) {
    forall k :: 0 <= k < |items| ==> items[k].orderId in OrderIds(orders)
  }

  /** The cart discipline the routes keep: no user has two pending orders. */
  predicate OnePendingPerUser(orders: seq<CartOrder>) {
    forall i, j :: 0 <= i < j < |orders| && orders[i].status == Pending && orders[j].status == Pending ==>
      orders[i].userId != orders[j].userId
  }

  /** Under the key, an order's items name each product at most once. */
  lemma ItemsOfOnePerProduct(items: seq<CartItem>, orderId: int)
    requires ItemKeysUnique(items)
    ensures forall a, b :: a in ItemsOf(items, orderId) && b in ItemsOf(items, orderId) && a.productId == b.productId ==> a == b
  {
    ItemsOfMembers(items, orderId);
    forall a, b | a in ItemsOf(items, orderId) && b in ItemsOf(items, orderId) && a.productId == b.productId
      ensures a == b
    {
      var i :| 0 <= i < |items| && items[i] == a;
      var j :| 0 <= j < |items| && items[j] == b;
      if i < j {
        assert false;
      } else if j < i {
        assert false;
      }
    }
  }

  /** With one pending order per user, the lookup finds the only one. */
  lemma PendingIsOnly(orders: seq<CartOrder>, userId: int)
    requires OnePendingPerUser(orders) && FindPending(orders, userId).Some?
    ensures forall k :: 0 <= k < |orders| && IsPendingOf(orders[k], userId) ==> k == FindPending(orders, userId).value
  {
  }

  // ---------------------------------------------------------------------
  // Serialization

  /** `OrderItem.to_dict`: the product is looked up and absent when gone. */
  function ItemToDict(it: CartItem, products: seq<CatalogProduct>): (v: ItemView)
    ensures v.orderId == it.orderId && v.productId == it.productId && v.quantity == it.quantity
    ensures v.product.None? <==> forall k :: 0 <= k < |products| ==> products[k].id != it.productId
    ensures v.product.Some? ==> v.product.value in products && v.product.value.id == it.productId
  {
    ItemView(it.orderId, it.productId, it.quantity, FindProduct(products, it.productId))
  }

  function ItemsToDict(its: seq<CartItem>, products: seq<CatalogProduct>): (r: seq<ItemView>)
    ensures |r| == |its|
    ensures forall k :: 0 <= k < |its| ==> r[k] == ItemToDict(its[k], products)
    decreases |its|
  {
    if its == [] then []
    else ItemsToDict(its[..|its| - 1], products) + [ItemToDict(its[|its| - 1], products)]
  }

  /** `Order.to_dict`: the order's columns and one serialized entry per item it owns. */
  function OrderToDict(o: CartOrder, items: seq<CartItem>, products: seq<CatalogProduct>): (v: OrderView)
    ensures v.id == o.id && v.userId == o.userId && v.date == o.date && v.status == o.status
    ensures |v.items| == |ItemsOf(items, o.id)|
    ensures forall k :: 0 <= k < |v.items| ==> v.items[k] == ItemToDict(ItemsOf(items, o.id)[k], products)
  {
    OrderView(o.id, o.userId, o.date, o.status, ItemsToDict(ItemsOf(items, o.id), products))
  }

  // ---------------------------------------------------------------------
  // Totals

  /**
   * `sum(item.product.price * item.quantity for item in ...)`: the total, or
   * `None` when an item's product is gone (the attribute access fails).
   */
  function LinesTotal(its: seq<CartItem>, products: seq<CatalogProduct>): Option<int>
    decreases |its|
  {
    if its == [] then Some(0)
    else
      match LinesTotal(its[..|its| - 1], products)
      case None => None
      case Some(t) =>
        match FindProduct(products, its[|its| - 1].productId)
        case None => None
        case Some(p) => Some(t + p.price * its[|its| - 1].quantity)
  }

  /** The total exists exactly when every item's product still exists. */
  lemma {:induction false} LinesTotalDefined(its: seq<CartItem>, products: seq<CatalogProduct>)
    ensures LinesTotal(its, products).Some? <==> forall k :: 0 <= k < |its| ==> FindProduct(products, its[k].productId).Some?
    decreases |its|
  {
    if its != [] {
      var init := its[..|its| - 1];
      LinesTotalDefined(init, products);
      assert forall k :: 0 <= k < |init| ==> init[k] == its[k];
    }
  }

  /** Totals add up over consecutive runs of items. */
  lemma {:induction false} LinesTotalAppend(a: seq<CartItem>, b: seq<CartItem>, products: seq<CatalogProduct>)
    requires LinesTotal(a, products).Some? && LinesTotal(b, products).Some?
    ensures LinesTotal(a + b, products) == Some(LinesTotal(a, products).value + LinesTotal(b, products).value)
    decreases |b|
  {
    if b == [] {
      assert a + b == a;
    } else {
      var b' := b[..|b| - 1];
      assert (a + b)[..|a + b| - 1] == a + b';
      LinesTotalAppend(a, b', products);
    }
  }

  /** One item's share of a total. */
  lemma LinesTotalSingle(it: CartItem, products: seq<CatalogProduct>)
    requires FindProduct(products, it.productId).Some?
    ensures LinesTotal([it], products) == Some(FindProduct(products, it.productId).value.price * it.quantity)
  {
    assert [it][..0] == [];
  }
}
