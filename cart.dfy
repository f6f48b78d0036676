/** The checkout page of frontend/src/pages/Cart.js: the quantity buttons,
    the coupon box, the discount and tax arithmetic, and the order request
    it sends. Amounts are exact reals. The cart store itself lives in
    CartContext, which is not part of this model: its subtotal is taken to
    be the sum of price times quantity over the lines, removing an item
    drops its lines, setting a quantity rewrites it, and clearing empties
    the cart. The server side of the coupon check is the verify route. */
module CartPage {
  import opened Common
  import opened Seqs
  import opened Text
  import opened CouponModel
  import opened CouponRoutes
  import opened OrderModel
  import opened OrderRoutes

  /** The tax rate of each of the two tax lines. */
  const TaxRate: real := 0.09

  datatype CartLine = CartLine(id: Id, name: string, price: real, quantity: int)

  datatype Cart = Cart(lines: seq<CartLine>, specialInstructions: string, couponCode: string,
                       appliedCoupon: Option<CouponGrant>)

  /** The amount shown for one line. */
  function LineTotal(l: CartLine): real {
    l.price * l.quantity as real
  }

  /** `getTotalPrice`: the sum of the line amounts. */
  function Subtotal(lines: seq<CartLine>): (r: real)
    ensures |lines| == 0 ==> r == 0.0
  {
    if |lines| == 0 then 0.0 else LineTotal(lines[0]) + Subtotal(lines[1..])
  }

  /** Lines with a non-negative price and quantity give a non-negative
      subtotal. */
  lemma {:induction false} SubtotalNonNegative(lines: seq<CartLine>)
    requires forall k :: 0 <= k < |lines| ==> lines[k].price >= 0.0 && lines[k].quantity >= 0
    ensures Subtotal(lines) >= 0.0
  {
    if |lines| > 0 {
      var l := lines[0];
      assert LineTotal(l) >= 0.0 by {
        assert l.price >= 0.0 && l.quantity as real >= 0.0;
      }
      SubtotalNonNegative(lines[1..]);
    }
  }

  /** `calculateDiscount`. */
  function Discount(subtotal: real, coupon: Option<CouponGrant>): (d: real)
    ensures coupon.None? ==> d == 0.0
    ensures coupon.Some? ==> d * 100.0 == subtotal * coupon.value.discountPercent as real
  {
    if coupon.None? then 0.0 else subtotal * coupon.value.discountPercent as real / 100.0
  }

  /** A coupon with a percentage in 1..100 takes off a positive amount no
      larger than a positive subtotal. */
  lemma DiscountBounds(subtotal: real, g: CouponGrant)
    requires subtotal > 0.0 && 1 <= g.discountPercent <= 100
    ensures 0.0 < Discount(subtotal, Some(g)) <= subtotal
  {
    var p := g.discountPercent as real;
    assert subtotal * p >= subtotal * 1.0;
    assert subtotal * p <= subtotal * 100.0;
  }

  /** `calculateCGST`: equal to the SGST line, and between zero and 9% of
      the subtotal when the discount does not exceed it. */
  function Cgst(subtotal: real, coupon: Option<CouponGrant>): (r: real)
    ensures r == Sgst(subtotal, coupon)
    ensures 0.0 <= Discount(subtotal, coupon) <= subtotal ==> 0.0 <= r <= TaxRate * subtotal
  {
    (subtotal - Discount(subtotal, coupon)) * TaxRate
  }

  /** `calculateSGST`: between zero and 9% of the subtotal when the
      discount does not exceed it. */
  function Sgst(subtotal: real, coupon: Option<CouponGrant>): (r: real)
    ensures 0.0 <= Discount(subtotal, coupon) <= subtotal ==> 0.0 <= r <= TaxRate * subtotal
  {
    (subtotal - Discount(subtotal, coupon)) * TaxRate
  }

  /** `calculateTotal`: the discounted subtotal plus 18% tax. */
  function Total(subtotal: real, coupon: Option<CouponGrant>): (t: real)
    ensures t == 1.18 * (subtotal - Discount(subtotal, coupon))
  {
    subtotal - Discount(subtotal, coupon) + Cgst(subtotal, coupon) + Sgst(subtotal, coupon)
  }

  /** The two tax lines are equal, and the total is the discounted subtotal
      plus 18%. */
  lemma TotalIsDiscountedPlusTax(subtotal: real, coupon: Option<CouponGrant>)
    ensures Cgst(subtotal, coupon) == Sgst(subtotal, coupon)
    ensures Total(subtotal, coupon) == 1.18 * (subtotal - Discount(subtotal, coupon))
  {
  }

  /** With a non-negative subtotal and a coupon of at most 100% the total
      is not negative. */
  lemma TotalNonNegative(subtotal: real, coupon: Option<CouponGrant>)
    requires subtotal >= 0.0
    requires coupon.Some? ==> coupon.value.discountPercent <= 100
    ensures Total(subtotal, coupon) >= 0.0
  {
    TotalIsDiscountedPlusTax(subtotal, coupon);
    if coupon.Some? {
      var p := coupon.value.discountPercent as real;
      assert subtotal * (100.0 - p) >= 0.0;
      assert Discount(subtotal, coupon) <= subtotal;
    }
  }

  /** A coupon saves its percentage of the subtotal, taxes included. */
  lemma CouponSaving(subtotal: real, g: CouponGrant)
    ensures Total(subtotal, None) - Total(subtotal, Some(g)) == 1.18 * Discount(subtotal, Some(g))
  {
  }

  function NotLine(id: Id): CartLine -> bool {
    (l: CartLine) => l.id != id
  }

  /** `updateQuantity` as assumed of the cart store. */
  function SetQuantity(lines: seq<CartLine>, id: Id, q: int): (r: seq<CartLine>)
    ensures |r| == |lines|
    ensures forall k :: 0 <= k < |lines| ==>
              r[k] == if lines[k].id == id then lines[k].(quantity := q) else lines[k]
  {
    if |lines| == 0 then []
    else [if lines[0].id == id then lines[0].(quantity := q) else lines[0]] + SetQuantity(lines[1..], id, q)
  }

  /** `handleQuantityChange`: a quantity of zero removes the item, any
      other value is stored as given. */
  function ChangeQuantity(c: Cart, id: Id, q: int): (c': Cart)
    ensures q == 0 ==> c'.lines == Filter(c.lines, NotLine(id))
    ensures q != 0 ==> c'.lines == SetQuantity(c.lines, id, q)
    ensures c' == c.(lines := c'.lines)
  {
    if q == 0 then c.(lines := Filter(c.lines, NotLine(id))) else c.(lines := SetQuantity(c.lines, id, q))
  }

  /** Setting a quantity to zero leaves no line of the item and keeps
      every other line. */
  lemma ZeroRemovesItem(c: Cart, id: Id)
    ensures forall l :: l in ChangeQuantity(c, id, 0).lines ==> l in c.lines && l.id != id
    ensures forall l :: l in c.lines && l.id != id ==> l in ChangeQuantity(c, id, 0).lines
  {
    FilterMembership(c.lines, NotLine(id));
  }

  /** A non-zero quantity keeps the lines and their order; only the
      item's quantity moves. */
  lemma NonZeroKeepsLines(c: Cart, id: Id, q: int)
    requires q != 0
    ensures |ChangeQuantity(c, id, q).lines| == |c.lines|
    ensures forall k :: 0 <= k < |c.lines| ==>
              ChangeQuantity(c, id, q).lines[k].id == c.lines[k].id &&
              ChangeQuantity(c, id, q).lines[k].price == c.lines[k].price
  {
  }

  /** `applyCoupon` against the stored coupons at time `now`: a blank code
      does nothing; otherwise the code is sent as typed, untrimmed, and the
      answer is applied, or clears the applied coupon. */
  function ApplyCoupon(c: Cart, cs: seq<Coupon>, now: Timestamp): (c': Cart)
    ensures Trim(c.couponCode) == "" ==> c' == c
    ensures Trim(c.couponCode) != "" ==>
              c' == c.(appliedCoupon := match Verify(cs, c.couponCode, now)
                                          case Ok(g) => Some(g)
                                          case _ => None)
  {
    if Trim(c.couponCode) == "" then c
    else
      match Verify(cs, c.couponCode, now)
      case Ok(g) => c.(appliedCoupon := Some(g))
      case _ => c.(appliedCoupon := None)
  }

  /** A usable coupon typed in any case is applied with its stored code and
      percentage. */
  lemma ApplyUsableCoupon(c: Cart, cs: seq<Coupon>, bound: Id, now: Timestamp, k: nat)
    requires ValidCoupons(cs, bound) && k < |cs|
    requires Trim(c.couponCode) != "" && Usable(cs[k], ToUpper(c.couponCode), now)
    ensures ApplyCoupon(c, cs, now).appliedCoupon == Some(CouponGrant(cs[k].discountPercent, cs[k].code))
  {
    VerifyReportsTheCoupon(cs, bound, c.couponCode, now, k);
  }

  /** A code typed with leading whitespace passes the blank check but is
      sent with the whitespace, so when no stored code starts with
      whitespace it is refused and any applied coupon is dropped. */
  lemma LeadingSpaceRefused(c: Cart, cs: seq<Coupon>, bound: Id, now: Timestamp)
    requires ValidCoupons(cs, bound)
    requires forall k :: 0 <= k < |cs| ==> NoSurroundingWhitespace(cs[k].code)
    requires |c.couponCode| > 0 && IsWhitespace(c.couponCode[0]) && Trim(c.couponCode) != ""
    ensures ApplyCoupon(c, cs, now).appliedCoupon.None?
  {
    VerifyRefusesLeadingSpace(cs, bound, now, c.couponCode);
  }

  /** No stored code starting without whitespace matches a code that
      starts with whitespace. */
  lemma VerifyRefusesLeadingSpace(cs: seq<Coupon>, bound: Id, now: Timestamp, code: string)
    requires ValidCoupons(cs, bound)
    requires forall k :: 0 <= k < |cs| ==> NoSurroundingWhitespace(cs[k].code)
    requires |code| > 0 && IsWhitespace(code[0])
    ensures Verify(cs, code, now).NotFound?
  {
    var up := ToUpper(code);
    assert up[0] == code[0];
    forall k | 0 <= k < |cs| ensures cs[k].code != up {
      assert WellFormed(cs[k]);
    }
  }

  /** `removeCoupon`. */
  function RemoveCoupon(c: Cart): (c': Cart)
    ensures c'.appliedCoupon.None? && c'.couponCode == ""
    ensures c'.lines == c.lines && c'.specialInstructions == c.specialInstructions
  {
    c.(appliedCoupon := None, couponCode := "")
  }

  /** One entry of the request's `items`. */
  function LineOf(l: CartLine): OrderLine {
    OrderLine(l.id, l.quantity, l.price)
  }

  function Lines(lines: seq<CartLine>): (r: seq<OrderLine>)
    ensures |r| == |lines|
    ensures forall k :: 0 <= k < |lines| ==>
              r[k].menuItem == lines[k].id && r[k].quantity == lines[k].quantity && r[k].price == lines[k].price
  {
    if |lines| == 0 then [] else [LineOf(lines[0])] + Lines(lines[1..])
  }

  /** `handleCheckout` up to the request: nothing for an empty cart, else
      one entry per line in order, the total and discount of the page, the
      applied coupon's code, and no redeemed points. */
  function Checkout(c: Cart): (req: Option<OrderRequest>)
    ensures req.None? <==> |c.lines| == 0
    ensures req.Some? ==>
              && req.value.items == Lines(c.lines)
              && req.value.totalAmount == Total(Subtotal(c.lines), c.appliedCoupon)
              && req.value.discountAmount == Discount(Subtotal(c.lines), c.appliedCoupon)
              && req.value.specialInstructions == c.specialInstructions
              && req.value.loyaltyPointsUsed.None?
              && req.value.couponApplied == (if c.appliedCoupon.Some? then Some(c.appliedCoupon.value.code) else None)
  {
    if |c.lines| == 0 then None
    else
      var sub := Subtotal(c.lines);
      var code := match c.appliedCoupon case Some(g) => Some(g.code) case None => None;
      Some(OrderRequest(Lines(c.lines), Total(sub, c.appliedCoupon), c.specialInstructions, None, code,
                        Discount(sub, c.appliedCoupon)))
  }

  /** The page once the order was placed: cart, coupon and code cleared. */
  function AfterCheckout(c: Cart): (c': Cart)
    ensures c'.lines == [] && c'.appliedCoupon.None? && c'.couponCode == ""
    ensures c'.specialInstructions == c.specialInstructions
  {
    c.(lines := [], appliedCoupon := None, couponCode := "")
  }

  /** The order the server builds from a checkout redeems no points, earns a
      tenth of the discounted, taxed total, and records no coupon. */
  lemma CheckoutOrder(c: Cart, id: Id, requester: Id, draw: real)
    requires |c.lines| > 0 && 0.0 <= draw < 1.0
    ensures NewOrder(id, requester, Checkout(c).value, draw).loyaltyPointsUsed == 0
    ensures NewOrder(id, requester, Checkout(c).value, draw).loyaltyPointsEarned ==
              PointsEarned(1.18 * (Subtotal(c.lines) - Discount(Subtotal(c.lines), c.appliedCoupon)))
    ensures NewOrder(id, requester, Checkout(c).value, draw).couponApplied.None?
    ensures NewOrder(id, requester, Checkout(c).value, draw).totalAmount == Total(Subtotal(c.lines), c.appliedCoupon)
  {
    TotalIsDiscountedPlusTax(Subtotal(c.lines), c.appliedCoupon);
  }

  /** Two waffles at 100 with a 10% coupon: a discount of 20, taxes of 16.2
      each, a total of 212.4 and 21 points; without the coupon 236 and 23. */
  lemma CheckoutExample(c: Cart)
    requires c.lines == [CartLine(1, "Belgian", 100.0, 2)]
    ensures Discount(Subtotal(c.lines), Some(CouponGrant(10, "SAVE10"))) == 20.0
    ensures Cgst(Subtotal(c.lines), Some(CouponGrant(10, "SAVE10"))) == 16.2
    ensures Total(Subtotal(c.lines), Some(CouponGrant(10, "SAVE10"))) == 212.4
    ensures PointsEarned(212.4) == 21
    ensures Total(Subtotal(c.lines), None) == 236.0 && PointsEarned(236.0) == 23
  {
    assert Subtotal(c.lines) == 200.0;
  }
}
