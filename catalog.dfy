/**
 * The catalog listing: the query parameters it accepts, the name search,
 * the ordering by price or name, the page slice, and the row each product
 * is reported as.  The database does the filtering, counting, sorting and
 * slicing; these functions say what each of those steps yields.
 */
module Catalog {
  import opened Wrappers
  import opened Money
  import opened Text
  import opened Models

  datatype SortKey = ByPrice | ByName
  datatype SortOrder = Ascending | Descending

  /** A listing request whose parameters passed validation. */
  datatype ListQuery = ListQuery(search: Option<string>, sort: SortKey, order: SortOrder, page: int, pageSize: int)

  datatype ParamError = BadSort | BadOrder | PageBelowOne | PageSizeOutOfRange

  const DefaultPageSize: int := 12

  /**
   * The query string: `sort` is `price` or `name` (default `name`), `order`
   * is `asc` or `desc` (default `asc`), `page` is at least 1 (default 1) and
   * `page_size` lies in 1-100 (default 12).  Every bad parameter is reported.
   */
  function ParseListQuery(search: Option<string>, sort: Option<string>, order: Option<string>,
                          page: Option<int>, pageSize: Option<int>): (r: Result<ListQuery, seq<ParamError>>)
    ensures r.Ok? <==> (sort.None? || sort.value in {"price", "name"})
                       && (order.None? || order.value in {"asc", "desc"})
                       && (page.None? || page.value >= 1)
                       && (pageSize.None? || 1 <= pageSize.value <= 100)
    ensures r.Ok? ==> r.value.search == search
    ensures r.Ok? ==> (r.value.sort == ByPrice <==> sort == Some("price"))
    ensures r.Ok? ==> (r.value.order == Descending <==> order == Some("desc"))
    ensures r.Ok? ==> r.value.page >= 1 && 1 <= r.value.pageSize <= 100
    ensures r.Ok? ==> r.value.page == (if page.Some? then page.value else 1)
    ensures r.Ok? ==> r.value.pageSize == (if pageSize.Some? then pageSize.value else DefaultPageSize)
  {
    var s := if sort.Some? then sort.value else "name";
    var o := if order.Some? then order.value else "asc";
    var p := if page.Some? then page.value else 1;
    var n := if pageSize.Some? then pageSize.value else DefaultPageSize;
    var errors := (if s == "price" || s == "name" then [] else [BadSort])
      + (if o == "asc" || o == "desc" then [] else [BadOrder])
      + (if p >= 1 then [] else [PageBelowOne])
      + (if 1 <= n <= 100 then [] else [PageSizeOutOfRange]);
    if errors == [] then
      Ok(ListQuery(search, if s == "price" then ByPrice else ByName, if o == "desc" then Descending else Ascending, p, n))
    else
      Err(errors)
  }

  // ---------------------------------------------------------------------
  // Search

  /** `lower(name) LIKE '%' || search.lower() || '%'`. */
  predicate NameMatches(p: Product, search: string) {
    Like(LowerStr(p.name), "%" + LowerStr(search) + "%")
  }

  /** An absent or empty search term selects everything. */
  predicate Searching(search: Option<string>) {
    search.Some? && search.value != []
  }

  /** The products the search selects, in table order. */
  function Filtered(products: seq<Product>, search: Option<string>): (r: seq<Product>)
    ensures |r| <= |products|
    ensures !Searching(search) ==> r == products
    decreases |products|
  {
    if !Searching(search) || products == [] then products
    else
      var rest := Filtered(products[1..], search);
      if NameMatches(products[0], search.value) then [products[0]] + rest else rest
  }

  /** A product is listed exactly when it is in the table and the search selects it. */
  lemma {:induction false} FilteredMembers(products: seq<Product>, search: Option<string>)
    ensures forall p :: p in Filtered(products, search) <==> p in products && (!Searching(search) || NameMatches(p, search.value))
    decreases |products|
  {
    if Searching(search) && products != [] {
      FilteredMembers(products[1..], search);
      assert forall p :: p in products <==> p == products[0] || p in products[1..];
    }
  }

  /** One product on its own is kept exactly when the search selects it. */
  lemma FilteredSingle(p: Product, search: Option<string>)
    ensures Filtered([p], search) == if !Searching(search) || NameMatches(p, search.value) then [p] else []
  {
    assert [p][1..] == [];
  }

  /**
   * The search is an order-preserving selection: it distributes over
   * concatenation, so the matches come once each and in table order.
   */
  lemma {:induction false} FilteredAppend(a: seq<Product>, b: seq<Product>, search: Option<string>)
    ensures Filtered(a + b, search) == Filtered(a, search) + Filtered(b, search)
    decreases |a|
  {
    if a == [] {
      assert a + b == b;
    } else if Searching(search) {
      var kept := if NameMatches(a[0], search.value) then [a[0]] else [];
      assert (a + b)[0] == a[0] && (a + b)[1..] == a[1..] + b;
      FilteredAppend(a[1..], b, search);
      calc {
        Filtered(a + b, search);
        kept + Filtered(a[1..] + b, search);
        kept + (Filtered(a[1..], search) + Filtered(b, search));
        { assert kept + (Filtered(a[1..], search) + Filtered(b, search))
              == (kept + Filtered(a[1..], search)) + Filtered(b, search); }
        (kept + Filtered(a[1..], search)) + Filtered(b, search);
        Filtered(a, search) + Filtered(b, search);
      }
    }
  }

  lemma LowerIdempotent(c: char)
    ensures Lower(Lower(c)) == Lower(c)
  {
  }

  lemma LowerStrKeepsNoWildcards(q: string)
    requires NoWildcards(q)
    ensures NoWildcards(LowerStr(q))
  {
    forall j | 0 <= j < |q| ensures LowerStr(q)[j] != '%' && LowerStr(q)[j] != '_' {
      assert LowerStr(q)[j] == Lower(q[j]);
    }
  }

  /** Containment up to case is blind to lower-casing either side. */
  lemma ContainsFoldLower(s: string, q: string)
    ensures ContainsFold(LowerStr(s), LowerStr(q)) <==> ContainsFold(s, q)
  {
    forall c | true ensures Lower(Lower(c)) == Lower(c) {
      LowerIdempotent(c);
    }
    forall i: nat ensures OccursAt(LowerStr(s), LowerStr(q), i) <==> OccursAt(s, q, i) {
      if i + |q| <= |s| {
        forall j | 0 <= j < |q| ensures FoldEq(LowerStr(s)[i + j], LowerStr(q)[j]) <==> FoldEq(s[i + j], q[j]) {
          assert LowerStr(s)[i + j] == Lower(s[i + j]);
          assert LowerStr(q)[j] == Lower(q[j]);
        }
      }
    }
    if ContainsFold(s, q) {
      var i: nat :| OccursAt(s, q, i);
      assert OccursAt(LowerStr(s), LowerStr(q), i);
    }
    if ContainsFold(LowerStr(s), LowerStr(q)) {
      var i: nat :| OccursAt(LowerStr(s), LowerStr(q), i);
      assert OccursAt(s, q, i);
    }
  }

  /**
   * For a search term without `%` or `_`, the search selects exactly the
   * products whose name contains the term, ignoring ASCII case.
   */
  lemma SearchIsSubstring(products: seq<Product>, search: string, p: Product)
    requires search != [] && NoWildcards(search)
    ensures p in Filtered(products, Some(search)) <==> p in products && ContainsFold(p.name, search)
  {
    FilteredMembers(products, Some(search));
    LowerStrKeepsNoWildcards(search);
    LikeIsContains(LowerStr(p.name), LowerStr(search));
    ContainsFoldLower(p.name, search);
  }

  // ---------------------------------------------------------------------
  // Ordering

  /** `a` may be listed before `b` under this ordering. */
  predicate InOrder(a: Product, b: Product, key: SortKey, order: SortOrder) {
    match (key, order)
    case (ByPrice, Ascending) => a.price <= b.price
    case (ByPrice, Descending) => a.price >= b.price
    case (ByName, Ascending) => LexLe(a.name, b.name)
    case (ByName, Descending) => LexLe(b.name, a.name)
  }

  lemma InOrderTotal(a: Product, b: Product, key: SortKey, order: SortOrder)
    ensures InOrder(a, b, key, order) || InOrder(b, a, key, order)
  {
    LexLeTotal(a.name, b.name);
  }

  lemma InOrderTransitive(a: Product, b: Product, c: Product, key: SortKey, order: SortOrder)
    requires InOrder(a, b, key, order) && InOrder(b, c, key, order)
    ensures InOrder(a, c, key, order)
  {
    if key == ByName {
      if order == Ascending {
        LexLeTrans(a.name, b.name, c.name);
      } else {
        LexLeTrans(c.name, b.name, a.name);
      }
    }
  }

  predicate SortedBy(s: seq<Product>, key: SortKey, order: SortOrder) {
    forall i :: 0 <= i < |s| - 1 ==> InOrder(s[i], s[i + 1], key, order)
  }

  /** Inserting into a sorted list keeps it sorted and adds exactly one element. */
  function Insert(x: Product, s: seq<Product>, key: SortKey, order: SortOrder): (r: seq<Product>)
    requires SortedBy(s, key, order)
    ensures SortedBy(r, key, order)
    ensures multiset(r) == multiset(s) + multiset{x}
    ensures r[0] == x || (s != [] && r[0] == s[0])
    decreases |s|
  {
    if s == [] || InOrder(x, s[0], key, order) then [x] + s
    else
      InOrderTotal(x, s[0], key, order);
      var t := Insert(x, s[1..], key, order);
      assert s == [s[0]] + s[1..];
      [s[0]] + t
  }

  /**
   * `ORDER BY price` or `ORDER BY name` (binary collation), ascending or
   * descending: a sorted permutation of the selected products.
   */
  function Sorted(s: seq<Product>, key: SortKey, order: SortOrder): (r: seq<Product>)
    ensures SortedBy(r, key, order)
    ensures multiset(r) == multiset(s)
    ensures |r| == |s|
    decreases |s|
  {
    if s == [] then []
    else
      assert s == [s[0]] + s[1..];
      Insert(s[0], Sorted(s[1..], key, order), key, order)
  }

  /** Sorted by neighbours means sorted between any two positions. */
  lemma {:induction false} SortedPairwise(s: seq<Product>, key: SortKey, order: SortOrder, i: int, j: int)
    requires SortedBy(s, key, order)
    requires 0 <= i < j < |s|
    ensures InOrder(s[i], s[j], key, order)
    decreases j - i
  {
    if j > i + 1 {
      SortedPairwise(s, key, order, i + 1, j);
      InOrderTransitive(s[i], s[i + 1], s[j], key, order);
    }
  }

  // ---------------------------------------------------------------------
  // Paging

  /** The first position of a page. */
  function Offset(page: int, pageSize: int): (off: int)
    requires page >= 1 && pageSize >= 1
    ensures off >= 0
  {
    (page - 1) * pageSize
  }

  /** `OFFSET (page - 1) * page_size LIMIT page_size`. */
  function Page(s: seq<Product>, page: int, pageSize: int): (r: seq<Product>)
    requires page >= 1 && pageSize >= 1
    ensures |r| <= pageSize
    ensures Offset(page, pageSize) >= |s| ==> r == []
    ensures Offset(page, pageSize) < |s| ==> |r| == if |s| - Offset(page, pageSize) < pageSize then |s| - Offset(page, pageSize) else pageSize
    ensures forall k :: 0 <= k < |r| ==> Offset(page, pageSize) + k < |s| && r[k] == s[Offset(page, pageSize) + k]
  {
    var off := Offset(page, pageSize);
    if off >= |s| then []
    else if |s| - off < pageSize then s[off..]
    else s[off..off + pageSize]
  }

  // ---------------------------------------------------------------------
  // The reported row

  /** A product as the API reports it, with its price serialized as text. */
  datatype ProductView = ProductView(
    id: int,
    name: string,
    description: Option<string>,
    price: string,
    stock: int,
    category: string,
    sku: Option<string>,
    imageUrl: Option<string>,
    createdAt: int,
    updatedAt: int)

  /** The serialized row: every column as stored, and a price text that reads back as the stored price. */
  function View(p: Product): (v: ProductView)
    ensures v.id == p.id && v.name == p.name && v.description == p.description && v.stock == p.stock
    ensures v.category == p.category && v.sku == p.sku && v.imageUrl == p.imageUrl
    ensures v.createdAt == p.createdAt && v.updatedAt == p.updatedAt
    ensures Parse(v.price) == Some(p.price)
  {
    FormatParseRoundTrip(p.price);
    ProductView(p.id, p.name, p.description, Format(p.price), p.stock, p.category, p.sku, p.imageUrl, p.createdAt, p.updatedAt)
  }

  /** The page the listing shows: filter, sort, then slice. */
  function Listing(products: seq<Product>, q: ListQuery): (r: seq<Product>)
    requires q.page >= 1 && q.pageSize >= 1
  {
    Page(Sorted(Filtered(products, q.search), q.sort, q.order), q.page, q.pageSize)
  }

  /** A page holds only elements of the list it cuts, and a cut of a sorted list is sorted. */
  lemma PageOfSorted(s: seq<Product>, page: int, pageSize: int, key: SortKey, order: SortOrder)
    requires page >= 1 && pageSize >= 1
    ensures forall p :: p in Page(s, page, pageSize) ==> p in s
    ensures SortedBy(s, key, order) ==> SortedBy(Page(s, page, pageSize), key, order)
  {
    var r := Page(s, page, pageSize);
    var off := Offset(page, pageSize);
    forall p | p in r ensures p in s {
      var k :| 0 <= k < |r| && r[k] == p;
      assert s[off + k] == p;
    }
    if SortedBy(s, key, order) {
      forall i | 0 <= i < |r| - 1 ensures InOrder(r[i], r[i + 1], key, order) {
        assert r[i] == s[off + i] && r[i + 1] == s[off + i + 1];
      }
    }
  }

  /**
   * Every listed product was selected by the search, the page is in the
   * requested order, and it holds at most `page_size` products.
   */
  lemma ListingSelectedAndOrdered(products: seq<Product>, q: ListQuery)
    requires q.page >= 1 && q.pageSize >= 1
    ensures |Listing(products, q)| <= q.pageSize
    ensures forall p :: p in Listing(products, q) ==> p in Filtered(products, q.search)
    ensures SortedBy(Listing(products, q), q.sort, q.order)
  {
    var filtered := Filtered(products, q.search);
    var sorted := Sorted(filtered, q.sort, q.order);
    PageOfSorted(sorted, q.page, q.pageSize, q.sort, q.order);
    forall p | p in sorted ensures p in filtered {
      assert p in multiset(sorted);
    }
  }
}
