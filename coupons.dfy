/**
 * Coupon lookup and the two places that judge a coupon: the validation
 * endpoint the browser calls before checkout, and the discount step of
 * order confirmation.  Lookup compares codes after ASCII lower-casing and
 * considers active coupons only; the two judges differ on a coupon whose
 * expiry instant is exactly now.
 */
module Coupons {
  import opened Wrappers
  import opened Money
  import opened Text
  import opened Models

  /** The coupon answers to this code: it is active and its code is equal up to ASCII case. */
  predicate Matches(c: Coupon, code: string) {
    c.active && LowerStr(c.code) == LowerStr(code)
  }

  /** `filter(lower(code) == code.lower(), active == True).first()`, in table order. */
  function FindCoupon(coupons: seq<Coupon>, code: string): (r: Option<Coupon>)
    ensures r.Some? ==> Matches(r.value, code)
    ensures r.Some? ==> exists k :: 0 <= k < |coupons| && coupons[k] == r.value
                                    && forall j :: 0 <= j < k ==> !Matches(coupons[j], code)
    ensures r.None? <==> forall k :: 0 <= k < |coupons| ==> !Matches(coupons[k], code)
  {
    if coupons == [] then None
    else if Matches(coupons[0], code) then Some(coupons[0])
    else
      var r := FindCoupon(coupons[1..], code);
      assert forall k :: 1 <= k < |coupons| ==> coupons[k] == coupons[1..][k - 1];
      if r.Some? then
        var k :| 0 <= k < |coupons[1..]| && coupons[1..][k] == r.value
                 && forall j :: 0 <= j < k ==> !Matches(coupons[1..][j], code);
        assert coupons[k + 1] == r.value;
        r
      else r
  }

  /** Two codes that select the same coupons find the same one. */
  lemma {:induction false} SameMatchesSameCoupon(coupons: seq<Coupon>, a: string, b: string)
    requires forall c :: Matches(c, a) == Matches(c, b)
    ensures FindCoupon(coupons, a) == FindCoupon(coupons, b)
    decreases |coupons|
  {
    if coupons != [] {
      SameMatchesSameCoupon(coupons[1..], a, b);
    }
  }

  /**
   * The validation endpoint answers with the stored code of the coupon it
   * found, and that code, sent back at checkout, finds the same coupon.
   */
  lemma FoundCodeFindsSameCoupon(coupons: seq<Coupon>, code: string)
    requires FindCoupon(coupons, code).Some?
    ensures FindCoupon(coupons, FindCoupon(coupons, code).value.code) == FindCoupon(coupons, code)
  {
    var c := FindCoupon(coupons, code).value;
    SameMatchesSameCoupon(coupons, c.code, code);
  }

  /**
   * Codes are unique only as stored: "A" and "a" may both exist, and a
   * lookup of either finds whichever comes first.
   */
  lemma CaseVariantsShareLookup()
    ensures var coupons := [Coupon(1, "A", 10, true, None, 0), Coupon(2, "a", 50, true, None, 0)];
            UniqueCodes(coupons) && FindCoupon(coupons, "a") == Some(coupons[0])
  {
    var coupons := [Coupon(1, "A", 10, true, None, 0), Coupon(2, "a", 50, true, None, 0)];
    assert LowerStr("A") == [Lower('A')] + LowerStr([]);
    assert LowerStr("a") == [Lower('a')] + LowerStr([]);
    assert Matches(coupons[0], "a");
  }

  // ---------------------------------------------------------------------
  // Expiry

  /** The validation endpoint's test: the expiry instant lies strictly in the past. */
  predicate Expired(c: Coupon, now: int) {
    c.validUntil.Some? && c.validUntil.value < now
  }

  /** Checkout's test: no expiry, or an expiry strictly in the future. */
  predicate UsableAtCheckout(c: Coupon, now: int) {
    c.validUntil.None? || c.validUntil.value > now
  }

  // ---------------------------------------------------------------------
  // The validation endpoint

  const NotFoundMessage: string := "Cupom não encontrado ou inativo"
  const ExpiredMessage: string := "Cupom expirado"
  const ValidMessage: string := "Cupom válido"

  /** The validation endpoint's reply. */
  datatype CouponCheck = CouponCheck(valid: bool, discountPercent: int, code: string, message: string)

  /**
   * `GET /coupons/{code}/validate`: valid, with the coupon's percentage and
   * stored code, exactly when an active coupon matches and has not expired;
   * otherwise not valid, with percentage 0, the code as asked and a message
   * that tells "not found or inactive" from "expired".
   */
  function ValidateCoupon(coupons: seq<Coupon>, code: string, now: int): (r: CouponCheck)
    ensures r.valid <==> FindCoupon(coupons, code).Some? && !Expired(FindCoupon(coupons, code).value, now)
    ensures r.valid ==> var c := FindCoupon(coupons, code).value;
                        r.discountPercent == c.discountPercent && r.code == c.code && r.message == ValidMessage
    ensures !r.valid ==> r.discountPercent == 0 && r.code == code
    ensures !r.valid ==> (r.message == NotFoundMessage <==> FindCoupon(coupons, code).None?)
    ensures !r.valid ==> (r.message == ExpiredMessage <==> FindCoupon(coupons, code).Some?)
  {
    match FindCoupon(coupons, code)
    case None => CouponCheck(false, 0, code, NotFoundMessage)
    case Some(c) =>
      if Expired(c, now) then CouponCheck(false, 0, code, ExpiredMessage)
      else CouponCheck(true, c.discountPercent, c.code, ValidMessage)
  }

  // ---------------------------------------------------------------------
  // The discount step of checkout

  /**
   * The coupon checkout applies: only for a non-empty code, only an active
   * case-insensitive match, and only when it is usable at this instant.
   */
  function CheckoutCoupon(coupons: seq<Coupon>, code: Option<string>, now: int): (r: Option<Coupon>)
    ensures r.Some? <==> code.Some? && code.value != [] && FindCoupon(coupons, code.value).Some?
                         && UsableAtCheckout(FindCoupon(coupons, code.value).value, now)
    ensures r.Some? ==> r == FindCoupon(coupons, code.value)
  {
    if code.None? || code.value == [] then None
    else match FindCoupon(coupons, code.value)
      case None => None
      case Some(c) => if UsableAtCheckout(c, now) then Some(c) else None
  }

  /**
   * The discount in cents: `subtotal * percent / 100` rounded half-up (ties
   * away from zero) when a coupon applies, and zero otherwise.
   */
  function Discount(coupons: seq<Coupon>, code: Option<string>, subtotal: Cents, now: int): (r: Cents)
    ensures CheckoutCoupon(coupons, code, now).None? ==> r == 0
    ensures CheckoutCoupon(coupons, code, now).Some? ==>
      var pct := CheckoutCoupon(coupons, code, now).value.discountPercent;
      2 * Abs(subtotal * pct - 100 * r) <= 100
      && (2 * Abs(subtotal * pct - 100 * r) == 100 ==> Abs(100 * r) > Abs(subtotal * pct))
  {
    match CheckoutCoupon(coupons, code, now)
    case None => 0
    case Some(c) =>
      var r := RoundHalfUp(subtotal * c.discountPercent, 100);
      assert r * 100 == 100 * r;
      r
  }

  /**
   * The browser keeps the code the validation endpoint answered with and
   * sends it at checkout.  That code finds the same coupon again, and
   * checkout applies it exactly when it is usable at the checkout instant,
   * so a coupon validated at its very expiry instant is accepted by the
   * endpoint and then silently not applied.
   */
  lemma {:induction false} ValidatedCodeAtCheckout(coupons: seq<Coupon>, code: string, validatedAt: int, now: int)
    requires code != []
    requires ValidateCoupon(coupons, code, validatedAt).valid
    ensures var c := FindCoupon(coupons, code).value;
            CheckoutCoupon(coupons, Some(ValidateCoupon(coupons, code, validatedAt).code), now)
            == (if UsableAtCheckout(c, now) then Some(c) else None)
    ensures var c := FindCoupon(coupons, code).value;
            c.validUntil == Some(now) ==>
              ValidateCoupon(coupons, code, now).valid
              && CheckoutCoupon(coupons, Some(ValidateCoupon(coupons, code, validatedAt).code), now).None?
  {
    var c := FindCoupon(coupons, code).value;
    FoundCodeFindsSameCoupon(coupons, code);
    assert |LowerStr(c.code)| == |LowerStr(code)|;
  }

  /**
   * A discount never exceeds the subtotal when the percentage lies in its
   * documented 0-100 range, and is never negative for a subtotal that is not.
   */
  lemma DiscountBounded(coupons: seq<Coupon>, code: Option<string>, subtotal: Cents, now: int)
    requires subtotal >= 0
    requires forall k :: 0 <= k < |coupons| ==> 0 <= coupons[k].discountPercent <= 100
    ensures 0 <= Discount(coupons, code, subtotal, now) <= subtotal
  {
    var c := CheckoutCoupon(coupons, code, now);
    if c.Some? {
      var k :| 0 <= k < |coupons| && coupons[k] == c.value
               && forall j :: 0 <= j < k ==> !Matches(coupons[j], code.value);
      var pct := c.value.discountPercent;
      MulBounded(subtotal, pct);
      RoundedShareBounded(subtotal * pct, subtotal, Discount(coupons, code, subtotal, now));
    }
  }

  lemma MulBounded(s: int, pct: int)
    requires s >= 0 && 0 <= pct <= 100
    ensures 0 <= s * pct <= 100 * s
  {
  }

  lemma RoundedShareBounded(n: int, s: int, r: int)
    requires 0 <= n <= 100 * s
    requires 2 * Abs(n - 100 * r) <= 100
    ensures 0 <= r <= s
  {
  }
}
