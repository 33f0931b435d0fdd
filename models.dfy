/**
 * The rows of the shop's relational schema (products, coupons, orders and
 * order items) and the table-wide constraints the schema declares: primary
 * keys, the UNIQUE columns and the foreign keys.  Prices and amounts are
 * DECIMAL(10,2) columns, held here as whole cents; timestamps are integers.
 */
module Models {
  import opened Wrappers
  import opened Money

  /** A catalog row.  `sku` is UNIQUE but nullable; several NULLs may coexist. */
  datatype Product = Product(
    id: int,
    name: string,
    description: Option<string>,
    price: Cents,
    stock: int,
    category: string,
    sku: Option<string>,
    imageUrl: Option<string>,
    createdAt: int,
    updatedAt: int)

  /** A discount coupon.  `discountPercent` is documented as 0-100 but nothing enforces it. */
  datatype Coupon = Coupon(
    id: int,
    code: string,
    discountPercent: int,
    active: bool,
    validUntil: Option<int>,
    createdAt: int)

  /** A confirmed order.  It may have no user: orders are placed without login. */
  datatype Order = Order(
    id: int,
    userId: Option<int>,
    subtotal: Cents,
    discountAmount: Cents,
    totalFinal: Cents,
    createdAt: int)

  /** One line of a confirmed order, with the price copied at confirmation. */
  datatype OrderItem = OrderItem(
    id: int,
    orderId: int,
    productId: int,
    quantity: int,
    unitPrice: Cents,
    lineTotal: Cents)

  // ---------------------------------------------------------------------
  // Lookups: `filter(<column> == key).first()`

  /** Position of the first product with this id. */
  function ProductIndex(products: seq<Product>, id: int): (r: Option<nat>)
    ensures r.Some? ==> r.value < |products| && products[r.value].id == id
    ensures r.Some? ==> forall j :: 0 <= j < r.value ==> products[j].id != id
    ensures r.None? <==> id !in ProductIds(products)
  {
    if products == [] then None
    else if products[0].id == id then Some(0)
    else match ProductIndex(products[1..], id)
      case None => None
      case Some(k) => Some(k + 1)
  }

  function ProductIds(products: seq<Product>): set<int> {
    set i | 0 <= i < |products| :: products[i].id
  }

  function OrderIds(orders: seq<Order>): set<int> {
    set i | 0 <= i < |orders| :: orders[i].id
  }

  function ItemIds(items: seq<OrderItem>): set<int> {
    set i | 0 <= i < |items| :: items[i].id
  }

  /** Some product other than the one at `except` already holds this SKU. */
  predicate SkuTaken(products: seq<Product>, sku: string, except: int) {
    exists j :: 0 <= j < |products| && j != except && products[j].sku == Some(sku)
  }

  // ---------------------------------------------------------------------
  // Table constraints

  predicate UniqueProductIds(products: seq<Product>) {
    forall i, j :: 0 <= i < j < |products| ==> products[i].id != products[j].id
  }

  /** The UNIQUE constraint on `products.sku`: non-NULL values never repeat. */
  predicate UniqueSkus(products: seq<Product>) {
    forall i, j :: 0 <= i < j < |products| && products[i].sku.Some? ==> products[i].sku != products[j].sku
  }

  /** The UNIQUE constraint on `coupons.code`, which compares codes exactly (case-sensitively). */
  predicate UniqueCodes(coupons: seq<Coupon>) {
    forall i, j :: 0 <= i < j < |coupons| ==> coupons[i].code != coupons[j].code
  }

  predicate UniqueOrderIds(orders: seq<Order>) {
    forall i, j :: 0 <= i < j < |orders| ==> orders[i].id != orders[j].id
  }

  predicate UniqueItemIds(items: seq<OrderItem>) {
    forall i, j :: 0 <= i < j < |items| ==> items[i].id != items[j].id
  }

  /**
   * The NOT NULL foreign keys of `order_items`: every item belongs to
   * exactly one existing order and names an existing product.
   */
  predicate ItemsReferenceRows(items: seq<OrderItem>, orders: seq<Order>, products: seq<Product>) {
    forall k :: 0 <= k < |items| ==> items[k].orderId in OrderIds(orders) && items[k].productId in ProductIds(products)
  }

  /** With unique ids, the product found by id is the only one with that id. */
  lemma {:induction false} ProductIndexUnique(products: seq<Product>, id: int, j: nat)
    requires UniqueProductIds(products)
    requires j < |products| && products[j].id == id
    ensures ProductIndex(products, id) == Some(j)
  {
    assert id in ProductIds(products);
  }

  // ---------------------------------------------------------------------
  // Row-level writes keep the constraints

  /** Appending a row with a fresh id and a free (or NULL) SKU keeps the product constraints. */
  lemma AppendProductKeepsConstraints(products: seq<Product>, p: Product, items: seq<OrderItem>, orders: seq<Order>)
    requires UniqueProductIds(products) && UniqueSkus(products)
    requires ItemsReferenceRows(items, orders, products)
    requires p.id !in ProductIds(products)
    requires p.sku.Some? ==> !SkuTaken(products, p.sku.value, -1)
    ensures ProductIds(products + [p]) == ProductIds(products) + {p.id}
    ensures UniqueProductIds(products + [p]) && UniqueSkus(products + [p])
    ensures ItemsReferenceRows(items, orders, products + [p])
  {
    var s := products + [p];
    assert forall i :: 0 <= i < |products| ==> s[i] == products[i];
    assert s[|products|] == p;
    assert forall i :: 0 <= i < |products| ==> products[i].id != p.id by {
      forall i | 0 <= i < |products| ensures products[i].id != p.id {
        assert products[i].id in ProductIds(products);
      }
    }
    assert ProductIds(s) == ProductIds(products) + {p.id} by {
      forall x | x in ProductIds(s) ensures x in ProductIds(products) + {p.id} {
        var i :| 0 <= i < |s| && s[i].id == x;
        if i < |products| {
          assert products[i].id == x;
        }
      }
    }
  }

  /** Replacing a row by one with the same id and an SKU no other row holds keeps the product constraints. */
  lemma ReplaceProductKeepsConstraints(products: seq<Product>, i: nat, q: Product, items: seq<OrderItem>, orders: seq<Order>)
    requires i < |products|
    requires UniqueProductIds(products) && UniqueSkus(products)
    requires ItemsReferenceRows(items, orders, products)
    requires q.id == products[i].id
    requires q.sku.Some? ==> !SkuTaken(products, q.sku.value, i)
    ensures ProductIds(products[i := q]) == ProductIds(products)
    ensures UniqueProductIds(products[i := q]) && UniqueSkus(products[i := q])
    ensures ItemsReferenceRows(items, orders, products[i := q])
  {
    var s := products[i := q];
    assert forall j :: 0 <= j < |s| ==> s[j].id == products[j].id;
    assert ProductIds(s) == ProductIds(products) by {
      forall x | x in ProductIds(s) ensures x in ProductIds(products) {
        var j :| 0 <= j < |s| && s[j].id == x;
        assert products[j].id == x;
      }
      forall x | x in ProductIds(products) ensures x in ProductIds(s) {
        var j :| 0 <= j < |products| && products[j].id == x;
        assert s[j].id == x;
      }
    }
  }

  /** Removing a row no item names keeps the product constraints, and its id is gone. */
  lemma RemoveProductKeepsConstraints(products: seq<Product>, i: nat, items: seq<OrderItem>, orders: seq<Order>)
    requires i < |products|
    requires UniqueProductIds(products) && UniqueSkus(products)
    requires ItemsReferenceRows(items, orders, products)
    requires forall k :: 0 <= k < |items| ==> items[k].productId != products[i].id
    ensures ProductIds(products[..i] + products[i + 1..]) == ProductIds(products) - {products[i].id}
    ensures UniqueProductIds(products[..i] + products[i + 1..]) && UniqueSkus(products[..i] + products[i + 1..])
    ensures ItemsReferenceRows(items, orders, products[..i] + products[i + 1..])
  {
    var s := products[..i] + products[i + 1..];
    RemoveProductIds(products, i);
    assert forall j :: 0 <= j < |s| ==> s[j] == if j < i then products[j] else products[j + 1];
  }

  /** With unique ids, removing a row removes exactly its id. */
  lemma RemoveProductIds(products: seq<Product>, i: nat)
    requires i < |products| && UniqueProductIds(products)
    ensures ProductIds(products[..i] + products[i + 1..]) == ProductIds(products) - {products[i].id}
  {
    var s := products[..i] + products[i + 1..];
    assert forall j :: 0 <= j < |s| ==> s[j] == if j < i then products[j] else products[j + 1];
    forall x | x in ProductIds(s) ensures x in ProductIds(products) - {products[i].id} {
      var j :| 0 <= j < |s| && s[j].id == x;
      if j < i {
        assert products[j].id == x;
      } else {
        assert products[j + 1].id == x;
      }
    }
    forall x | x in ProductIds(products) - {products[i].id} ensures x in ProductIds(s) {
      var j :| 0 <= j < |products| && products[j].id == x;
      if j < i {
        assert s[j].id == x;
      } else {
        assert s[j - 1].id == x;
      }
    }
  }
}
