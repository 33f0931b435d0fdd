/**
 * The request bodies the API accepts and the field constraints it checks
 * before a handler runs.  Every validator reports all failing fields at
 * once, in declaration order; a body that passes comes back with its price
 * quantized to cents.
 */
module Schemas {
  import opened Wrappers
  import opened Money

  /** One failing field; item errors carry the position of the offending line. */
  datatype FieldError =
    | NameLength
    | PasswordTooShort
    | PriceBelowMinimum
    | PriceNotPositive
    | StockNegative
    | SkuTooLong
    | ImageUrlTooLong
    | NoItems
    | ProductIdNotPositive(line: nat)
    | QuantityBelowOne(line: nat)

  function Check(ok: bool, e: FieldError): (r: seq<FieldError>)
    ensures r == [] <==> ok
    ensures !ok ==> e in r
    ensures forall f :: f in r ==> f == e
  {
    if ok then [] else [e]
  }

  // ---------------------------------------------------------------------
  // Users

  datatype UserCreate = UserCreate(name: string, email: string, password: string)

  predicate NameLengthOk(name: string) {
    3 <= |name| <= 60
  }

  /** A new user needs a 3-60 character name and a password of at least 6 characters. */
  function ValidateUserCreate(name: string, email: string, password: string): (r: Result<UserCreate, seq<FieldError>>)
    ensures r.Ok? <==> NameLengthOk(name) && |password| >= 6
    ensures r.Ok? ==> r.value == UserCreate(name, email, password)
    ensures r.Err? ==> (NameLength in r.error <==> !NameLengthOk(name))
    ensures r.Err? ==> (PasswordTooShort in r.error <==> |password| < 6)
  {
    var errors := Check(NameLengthOk(name), NameLength) + Check(|password| >= 6, PasswordTooShort);
    if errors == [] then Ok(UserCreate(name, email, password)) else Err(errors)
  }

  // ---------------------------------------------------------------------
  // Prices

  /**
   * The `validate_price` hook that runs once the field's `>= 0.01` bound has
   * passed: it refuses a price that is not positive and otherwise quantizes
   * to cents with the default (half-even) rounding.
   */
  function ValidatePrice(d: Dec): (r: Result<Cents, FieldError>)
    ensures r.Ok? <==> !NotPositive(d)
    ensures r.Err? ==> r.error == PriceNotPositive
  {
    if NotPositive(d) then Err(PriceNotPositive) else Ok(QuantizeHalfEven(d))
  }

  /**
   * The whole price field: the `>= 0.01` bound and then `validate_price`.
   * A price passes exactly when it is at least one cent, so the hook's
   * own refusal can never fire; the stored price is the nearest cent, ties
   * to the even cent, never below one cent, and exact for a price that
   * already has at most two decimals.
   */
  function PriceField(d: Dec): (r: Result<Cents, FieldError>)
    ensures r.Ok? <==> AtLeastOneCent(d)
    ensures r.Err? ==> r.error == PriceBelowMinimum
    ensures r.Ok? ==> r.value >= 1
    ensures r.Ok? ==> 2 * Abs(r.value * Pow10(d.scale) - 100 * d.coeff) <= Pow10(d.scale)
    ensures r.Ok? && 2 * Abs(r.value * Pow10(d.scale) - 100 * d.coeff) == Pow10(d.scale) ==> r.value % 2 == 0
    ensures r.Ok? && d.scale <= 2 ==> r.value * Pow10(d.scale) == 100 * d.coeff
  {
    if !AtLeastOneCent(d) then Err(PriceBelowMinimum)
    else
      PositiveNotNonPositive(d);
      ValidatePrice(d)
  }

  /** A price of at least one cent is positive. */
  lemma PositiveNotNonPositive(d: Dec)
    requires AtLeastOneCent(d)
    ensures !NotPositive(d)
  {
    assert Pow10(d.scale) >= 1;
  }

  // ---------------------------------------------------------------------
  // Products

  /** A product body as received; the price is the decimal the client wrote. */
  datatype ProductInput = ProductInput(
    name: string,
    description: Option<string>,
    price: Dec,
    stock: int,
    category: string,
    sku: Option<string>,
    imageUrl: Option<string>)

  /** A product body that passed validation, with its price in cents. */
  datatype ProductCreate = ProductCreate(
    name: string,
    description: Option<string>,
    price: Cents,
    stock: int,
    category: string,
    sku: Option<string>,
    imageUrl: Option<string>)

  predicate SkuLengthOk(sku: Option<string>) {
    sku.None? || |sku.value| <= 100
  }

  predicate ImageUrlLengthOk(url: Option<string>) {
    url.None? || |url.value| <= 500
  }

  /**
   * A new product needs a 3-60 character name, a price of at least one
   * cent, a stock that is not negative, an SKU of at most 100 and an image
   * URL of at most 500 characters; description and category are free.
   */
  /** The errors of a new product's fields, in field order. */
  function ProductCreateErrors(p: ProductInput): (errors: seq<FieldError>)
    ensures errors == [] <==> NameLengthOk(p.name) && AtLeastOneCent(p.price) && p.stock >= 0
                              && SkuLengthOk(p.sku) && ImageUrlLengthOk(p.imageUrl)
    ensures PriceBelowMinimum in errors <==> !AtLeastOneCent(p.price)
    ensures StockNegative in errors <==> p.stock < 0
    ensures NameLength in errors <==> !NameLengthOk(p.name)
    ensures SkuTooLong in errors <==> !SkuLengthOk(p.sku)
    ensures ImageUrlTooLong in errors <==> !ImageUrlLengthOk(p.imageUrl)
  {
    var price := PriceField(p.price);
    Check(NameLengthOk(p.name), NameLength)
      + (if price.Err? then [price.error] else [])
      + Check(p.stock >= 0, StockNegative)
      + Check(SkuLengthOk(p.sku), SkuTooLong)
      + Check(ImageUrlLengthOk(p.imageUrl), ImageUrlTooLong)
  }

  function ValidateProductCreate(p: ProductInput): (r: Result<ProductCreate, seq<FieldError>>)
    ensures r.Ok? <==> NameLengthOk(p.name) && AtLeastOneCent(p.price) && p.stock >= 0
                       && SkuLengthOk(p.sku) && ImageUrlLengthOk(p.imageUrl)
    ensures r.Ok? ==> r.value.name == p.name && r.value.description == p.description
                      && r.value.stock == p.stock && r.value.category == p.category
                      && r.value.sku == p.sku && r.value.imageUrl == p.imageUrl
    ensures r.Ok? ==> PriceField(p.price) == Ok(r.value.price)
    ensures r.Err? ==> (PriceBelowMinimum in r.error <==> !AtLeastOneCent(p.price))
    ensures r.Err? ==> (StockNegative in r.error <==> p.stock < 0)
    ensures r.Err? ==> (NameLength in r.error <==> !NameLengthOk(p.name))
    ensures r.Err? ==> (SkuTooLong in r.error <==> !SkuLengthOk(p.sku))
    ensures r.Err? ==> (ImageUrlTooLong in r.error <==> !ImageUrlLengthOk(p.imageUrl))
  {
    var price := PriceField(p.price);
    var errors := ProductCreateErrors(p);
    if errors == [] then
      Ok(ProductCreate(p.name, p.description, price.value, p.stock, p.category, p.sku, p.imageUrl))
    else
      Err(errors)
  }

  /** A partial product body: `None` marks a field the client did not send. */
  datatype ProductPatchInput = ProductPatchInput(
    name: Option<string>,
    description: Option<string>,
    price: Option<Dec>,
    stock: Option<int>,
    category: Option<string>,
    sku: Option<string>,
    imageUrl: Option<string>)

  datatype ProductUpdate = ProductUpdate(
    name: Option<string>,
    description: Option<string>,
    price: Option<Cents>,
    stock: Option<int>,
    category: Option<string>,
    sku: Option<string>,
    imageUrl: Option<string>)

  /**
   * The update hook for a supplied price: refuses a price that is not
   * positive and quantizes the rest.  Its branch that returns a zero price
   * unquantized follows the refusal of every price at or below zero, so it
   * is never taken.
   */
  function ValidateUpdatePrice(d: Dec): (r: Result<Cents, FieldError>)
    ensures r.Ok? <==> !NotPositive(d)
    ensures r.Err? ==> r.error == PriceNotPositive
  {
    if NotPositive(d) then Err(PriceNotPositive)
    else if d.coeff != 0 then Ok(QuantizeHalfEven(d))
    else Ok(0)
  }

  /** The optional price of an update: absent stays absent, present is checked as on create. */
  function UpdatePriceField(d: Option<Dec>): (r: Result<Option<Cents>, FieldError>)
    ensures d.None? ==> r == Ok(None)
    ensures d.Some? ==> (r.Ok? <==> AtLeastOneCent(d.value))
    ensures d.Some? && r.Ok? ==> r.value.Some? && PriceField(d.value) == Ok(r.value.value)
  {
    if d.None? then Ok(None)
    else if !AtLeastOneCent(d.value) then Err(PriceBelowMinimum)
    else
      PositiveNotNonPositive(d.value);
      assert d.value.coeff != 0;
      match ValidateUpdatePrice(d.value)
      case Ok(c) => Ok(Some(c))
      case Err(e) => Err(e)
  }

  /**
   * Every field of an update is optional; each supplied field meets the
   * constraint it has on create, and the fields pass through otherwise
   * untouched (absent stays absent).
   */
  function ValidateProductUpdate(p: ProductPatchInput): (r: Result<ProductUpdate, seq<FieldError>>)
    ensures r.Ok? <==> (p.name.None? || NameLengthOk(p.name.value))
                       && (p.price.None? || AtLeastOneCent(p.price.value))
                       && (p.stock.None? || p.stock.value >= 0)
                       && SkuLengthOk(p.sku) && ImageUrlLengthOk(p.imageUrl)
    ensures r.Ok? ==> r.value.name == p.name && r.value.description == p.description
                      && r.value.stock == p.stock && r.value.category == p.category
                      && r.value.sku == p.sku && r.value.imageUrl == p.imageUrl
    ensures r.Ok? ==> (r.value.price.None? <==> p.price.None?)
    ensures r.Ok? && p.price.Some? ==> PriceField(p.price.value) == Ok(r.value.price.value)
  {
    var price := UpdatePriceField(p.price);
    var errors := Check(p.name.None? || NameLengthOk(p.name.value), NameLength)
      + (if price.Err? then [price.error] else [])
      + Check(p.stock.None? || p.stock.value >= 0, StockNegative)
      + Check(SkuLengthOk(p.sku), SkuTooLong)
      + Check(ImageUrlLengthOk(p.imageUrl), ImageUrlTooLong);
    if errors == [] then
      Ok(ProductUpdate(p.name, p.description, price.value, p.stock, p.category, p.sku, p.imageUrl))
    else
      Err(errors)
  }

  // ---------------------------------------------------------------------
  // Orders

  /** One requested order line. */
  datatype LineInput = LineInput(productId: int, quantity: int)

  /** An order request; an absent coupon code is `None`. */
  datatype OrderCreate = OrderCreate(items: seq<LineInput>, couponCode: Option<string>)

  predicate LineOk(line: LineInput) {
    line.productId > 0 && line.quantity >= 1
  }

  /** The errors of the lines from position `first` on, in line order. */
  function LineErrors(lines: seq<LineInput>, first: nat): seq<FieldError>
    decreases |lines|
  {
    if lines == [] then []
    else
      Check(lines[0].productId > 0, ProductIdNotPositive(first))
        + Check(lines[0].quantity >= 1, QuantityBelowOne(first))
        + LineErrors(lines[1..], first + 1)
  }

  /** `r` is empty exactly when every line is valid, and names each failing line by its index. */
  predicate ReportsEveryLine(lines: seq<LineInput>, first: nat, r: seq<FieldError>) {
    && (r == [] <==> forall k :: 0 <= k < |lines| ==> LineOk(lines[k]))
    && (forall k :: 0 <= k < |lines| && lines[k].quantity < 1 ==> QuantityBelowOne(first + k) in r)
    && (forall k :: 0 <= k < |lines| && lines[k].productId <= 0 ==> ProductIdNotPositive(first + k) in r)
  }

  /**
   * The line checks find nothing exactly when every line is valid, and each
   * failing line is reported under its own index.
   */
  lemma {:induction false} LineErrorsReport(lines: seq<LineInput>, first: nat)
    ensures LineErrors(lines, first) == [] <==> forall k :: 0 <= k < |lines| ==> LineOk(lines[k])
    ensures forall k :: 0 <= k < |lines| && lines[k].quantity < 1 ==> QuantityBelowOne(first + k) in LineErrors(lines, first)
    ensures forall k :: 0 <= k < |lines| && lines[k].productId <= 0 ==> ProductIdNotPositive(first + k) in LineErrors(lines, first)
    decreases |lines|
  {
    LineErrorsReportStep(lines, first);
  }

  /** The induction behind `LineErrorsReport`, over the named predicate. */
  lemma {:induction false} LineErrorsReportStep(lines: seq<LineInput>, first: nat)
    ensures ReportsEveryLine(lines, first, LineErrors(lines, first))
    decreases |lines|
  {
    if lines != [] {
      LineErrorsReportStep(lines[1..], first + 1);
      LineErrorsCons(lines, first, LineErrors(lines[1..], first + 1));
    }
  }

  /** The errors of the first line, in front of those of the others, report every line. */
  lemma LineErrorsCons(lines: seq<LineInput>, first: nat, rest: seq<FieldError>)
    requires lines != []
    requires ReportsEveryLine(lines[1..], first + 1, rest)
    ensures ReportsEveryLine(lines, first, Check(lines[0].productId > 0, ProductIdNotPositive(first))
                                           + Check(lines[0].quantity >= 1, QuantityBelowOne(first)) + rest)
  {
    assert forall k :: 1 <= k < |lines| ==> lines[k] == lines[1..][k - 1];
  }

  /** An order needs at least one line, each with a positive product id and a quantity of at least one. */
  function ValidateOrderCreate(o: OrderCreate): (r: Result<OrderCreate, seq<FieldError>>)
    ensures r.Ok? <==> |o.items| >= 1 && forall k :: 0 <= k < |o.items| ==> LineOk(o.items[k])
    ensures r.Ok? ==> r.value == o
    ensures r.Err? ==> (NoItems in r.error <==> o.items == [])
    ensures r.Err? ==> forall k :: 0 <= k < |o.items| && o.items[k].productId <= 0 ==> ProductIdNotPositive(k) in r.error
    ensures r.Err? ==> forall k :: 0 <= k < |o.items| && o.items[k].quantity < 1 ==> QuantityBelowOne(k) in r.error
  {
    var errors := Check(|o.items| >= 1, NoItems) + LineErrors(o.items, 0);
    LineErrorsReport(o.items, 0);
    assert NoItems !in LineErrors(o.items, 0) by {
      LineErrorsAreLineErrors(o.items, 0);
    }
    if errors == [] then Ok(o) else Err(errors)
  }

  /** The line errors never include the order-level error. */
  lemma {:induction false} LineErrorsAreLineErrors(lines: seq<LineInput>, first: nat)
    ensures forall e :: e in LineErrors(lines, first) ==> e.ProductIdNotPositive? || e.QuantityBelowOne?
    decreases |lines|
  {
    if lines != [] {
      LineErrorsAreLineErrors(lines[1..], first + 1);
    }
  }
}
