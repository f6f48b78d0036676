/** The coupon manager of frontend/src/components/admin/CouponManagement.js:
    the create form and the status label of each listed coupon. The clock
    is a parameter `now`; the expiry typed as a date is the form's text and
    its conversion to a timestamp is not modelled. */
module CouponManagement {
  import opened Common
  import opened Text
  import opened CouponModel
  import opened CouponRoutes

  const ActiveLabel := "Active"
  const InactiveLabel := "Inactive"
  const DefaultPercent := 10

  /** The form fields; `expiresAt` is the date text. */
  datatype CouponForm = CouponForm(code: string, discountPercent: int, expiresAt: string)

  /** `isExpired`: the expiry lies strictly before now. An expired coupon
      fails the verify route's strictly-after test; one that is not expired
      passes it unless it expires exactly now. */
  predicate IsExpired(expiresAt: Timestamp, now: Timestamp): (b: bool)
    ensures b ==> !(expiresAt > now)
    ensures !b && expiresAt != now ==> expiresAt > now
  {
    expiresAt < now
  }

  /** The status cell of a listed coupon. */
  function StatusLabel(c: Coupon, now: Timestamp): (shown: string)
    ensures shown == ActiveLabel <==> c.isActive && c.expiresAt >= now
    ensures shown == ActiveLabel || shown == InactiveLabel
  {
    if c.isActive && !IsExpired(c.expiresAt, now) then ActiveLabel else InactiveLabel
  }

  /** A coupon that expires exactly now is listed as Active, yet verify
      refuses its code. */
  lemma LabelDisagreesAtExpiry(cs: seq<Coupon>, bound: Id, k: nat, now: Timestamp)
    requires ValidCoupons(cs, bound) && k < |cs|
    requires cs[k].isActive && cs[k].expiresAt == now
    ensures StatusLabel(cs[k], now) == ActiveLabel
    ensures Verify(cs, cs[k].code, now) == NotFound(InvalidCoupon)
  {
    UpperCaseFacts(cs[k].code);
    forall j | 0 <= j < |cs| ensures !Usable(cs[j], cs[k].code, now) {
      if j != k {
        assert cs[j].code != cs[k].code;
      }
    }
  }

  /** Away from that instant the label says Active exactly when verify
      accepts the coupon's code. */
  lemma LabelAgreesOffExpiry(cs: seq<Coupon>, bound: Id, k: nat, now: Timestamp)
    requires ValidCoupons(cs, bound) && k < |cs|
    requires cs[k].expiresAt != now
    ensures StatusLabel(cs[k], now) == ActiveLabel <==> Verify(cs, cs[k].code, now).Ok?
  {
    UpperCaseFacts(cs[k].code);
    forall j | 0 <= j < |cs| && j != k ensures !Usable(cs[j], cs[k].code, now) {
      assert cs[j].code != cs[k].code;
    }
  }

  /** Typing into the code box stores the input upper-cased. */
  function TypeCode(f: CouponForm, input: string): (f': CouponForm)
    ensures IsUpperCase(f'.code) && |f'.code| == |input|
    ensures f'.code == ToUpper(input)
    ensures f'.discountPercent == f.discountPercent && f'.expiresAt == f.expiresAt
  {
    UpperCaseFacts(input);
    f.(code := ToUpper(input))
  }

  /** The form as the component mounts, and as `resetForm` leaves it, with
      `defaultExpiry` the date thirty days ahead. */
  function ResetForm(defaultExpiry: string): (f: CouponForm)
    ensures f.code == "" && f.discountPercent == DefaultPercent && f.expiresAt == defaultExpiry
  {
    CouponForm("", 10, defaultExpiry)
  }

  /** The server's own upper-casing leaves a typed code as the form shows
      it: the coupon created from the form is stored with the code on
      screen. */
  lemma CreatedCodeIsShownCode(cs: seq<Coupon>, id: Id, f: CouponForm, input: string,
                               expiresAt: Timestamp, creator: Id)
    requires Create(cs, id, TypeCode(f, input).code, f.discountPercent, expiresAt, creator).reply.Ok?
    ensures Create(cs, id, TypeCode(f, input).code, f.discountPercent, expiresAt, creator).reply.value.code
         == TypeCode(f, input).code
  {
    UpperCaseFacts(input);
  }
}
