/** The handlers of backend/routes/coupons.js as transitions of the coupon
    collection: create, list, delete, toggle and verify. */
module CouponRoutes {
  import opened Common
  import opened Text
  import opened Seqs
  import opened CouponModel

  const CodeExists := "Coupon code already exists"
  const CouponNotFound := "Coupon not found"
  const CouponDeleted := "Coupon deleted successfully"
  const InvalidCoupon := "Invalid or expired coupon code"
  /** Stands for the message of the validation error `save` throws. */
  const CouponValidationFailed := "Coupon validation failed"

  /** What verify sends back on success (besides `valid: true`). */
  datatype CouponGrant = CouponGrant(discountPercent: int, code: string)

  /** The document `findOne({ code })` looks for. */
  function WithCode(code: string): Coupon -> bool {
    (c: Coupon) => c.code == code
  }

  /** A coupon verify accepts for the upper-cased code `up` at time `now`:
      active, and expiring strictly after `now`. */
  predicate Usable(c: Coupon, up: string, now: Timestamp) {
    c.code == up && c.isActive && c.expiresAt > now
  }

  function Redeemable(up: string, now: Timestamp): Coupon -> bool {
    (c: Coupon) => Usable(c, up, now)
  }

  /** POST /: reject a code whose upper-case form is taken, otherwise build
      the document with the upper-cased code and save it, which fails
      validation for an empty code or a percentage outside 1..100. */
  function Create(cs: seq<Coupon>, id: Id, code: string, percent: int, expiresAt: Timestamp, creator: Id)
    : (o: Outcome<seq<Coupon>, Coupon>)
    ensures (exists k :: 0 <= k < |cs| && cs[k].code == ToUpper(code)) ==>
              o == Outcome(BadRequest(CodeExists), cs)
    ensures o.reply.Ok? <==>
              && (forall k :: 0 <= k < |cs| ==> cs[k].code != ToUpper(code))
              && |code| > 0 && 1 <= percent <= 100
    ensures o.reply.Ok? ==>
              && o.reply.value.id == id
              && o.reply.value.code == ToUpper(code)
              && o.reply.value.discountPercent == percent
              && o.reply.value.isActive
              && o.reply.value.expiresAt == expiresAt
              && o.reply.value.createdBy == creator
              && o.state == cs + [o.reply.value]
    ensures !o.reply.Ok? ==> o.state == cs
  {
    var up := ToUpper(code);
    UpperCaseFacts(code);
    if Find(cs, WithCode(up)).Some? then Outcome(BadRequest(CodeExists), cs)
    else
      var c := NewCoupon(id, up, percent, expiresAt, creator);
      if !WellFormed(c) then Outcome(ServerError(CouponValidationFailed), cs)
      else Outcome(Ok(c), cs + [c])
  }

  /** A create keeps the collection valid, whatever its outcome. */
  lemma CreateKeepsValid(cs: seq<Coupon>, id: Id, code: string, percent: int, expiresAt: Timestamp, creator: Id)
    requires ValidCoupons(cs, id)
    ensures ValidCoupons(Create(cs, id, code, percent, expiresAt, creator).state, id + 1)
  {
    var o := Create(cs, id, code, percent, expiresAt, creator);
    UpperCaseFacts(code);
    assert forall k :: 0 <= k < |cs| ==> CouponKey(cs[k]) < id;
  }

  /** GET /admin: newest first. */
  function List(cs: seq<Coupon>): (r: seq<Coupon>)
    ensures |r| == |cs|
    ensures forall k :: 0 <= k < |cs| ==> r[k] == cs[|cs| - 1 - k]
  {
    Reverse(cs)
  }

  /** The listing holds the same coupons, with ids strictly decreasing. */
  lemma ListNewestFirst(cs: seq<Coupon>, bound: Id)
    requires ValidCoupons(cs, bound)
    ensures Descending(List(cs), CouponKey)
    ensures forall c :: c in List(cs) <==> c in cs
  {
    ReverseOfAscending(cs, CouponKey);
    ReverseMembers(cs);
  }

  /** DELETE /:id: the document with that id goes; a missing id is a 404. */
  function Delete(cs: seq<Coupon>, id: Id): (o: Outcome<seq<Coupon>, string>)
    ensures o.reply.NotFound? <==> forall k :: 0 <= k < |cs| ==> cs[k].id != id
    ensures o.reply.NotFound? ==> o == Outcome(NotFound(CouponNotFound), cs)
    ensures o.reply.Ok? || o.reply.NotFound?
    ensures o.reply.Ok? ==>
              && o.reply.value == CouponDeleted
              && |o.state| == |cs| - 1
              && exists k :: 0 <= k < |cs| && cs[k].id == id && o.state == cs[..k] + cs[k + 1..]
  {
    match Find(cs, IdIs(id))
    case None => Outcome(NotFound(CouponNotFound), cs)
    case Some(k) => Outcome(Ok(CouponDeleted), cs[..k] + cs[k + 1..])
  }

  /** In a valid collection a delete removes exactly the coupon with that
      id: the rest keep their order, and the collection stays valid. */
  lemma DeleteRemovesExactly(cs: seq<Coupon>, bound: Id, id: Id)
    requires ValidCoupons(cs, bound)
    ensures Delete(cs, id).state == Filter(cs, NotCoupon(id))
    ensures forall c :: c in Delete(cs, id).state <==> c in cs && c.id != id
    ensures ValidCoupons(Delete(cs, id).state, bound)
  {
    var o := Delete(cs, id);
    FilterMembership(cs, NotCoupon(id));
    ValidCouponsFilter(cs, bound, NotCoupon(id));
    match Find(cs, IdIs(id))
    case None =>
      FilterAllPass(cs, NotCoupon(id));
    case Some(k) =>
      forall j | 0 <= j < |cs| && j != k ensures NotCoupon(id)(cs[j]) {
        ValidIdsDistinct(cs, bound, j, k);
      }
      FilterRemovesOne(cs, NotCoupon(id), k);
  }

  /** PATCH /:id/toggle: flip `isActive` of the coupon with that id. */
  function Toggle(cs: seq<Coupon>, id: Id): (o: Outcome<seq<Coupon>, Coupon>)
    ensures o.reply.NotFound? <==> forall k :: 0 <= k < |cs| ==> cs[k].id != id
    ensures o.reply.NotFound? ==> o == Outcome(NotFound(CouponNotFound), cs)
    ensures o.reply.Ok? || o.reply.NotFound?
    ensures o.reply.Ok? ==>
              exists k :: 0 <= k < |cs| && cs[k].id == id
                && o.reply.value == cs[k].(isActive := !cs[k].isActive)
                && o.state == cs[k := o.reply.value]
  {
    match Find(cs, IdIs(id))
    case None => Outcome(NotFound(CouponNotFound), cs)
    case Some(k) =>
      var c := cs[k].(isActive := !cs[k].isActive);
      Outcome(Ok(c), cs[k := c])
  }

  /** In a valid collection a toggle flips that coupon only and keeps the
      collection valid. */
  lemma ToggleFlipsOnlyThat(cs: seq<Coupon>, bound: Id, id: Id)
    requires ValidCoupons(cs, bound)
    ensures |Toggle(cs, id).state| == |cs|
    ensures forall j :: 0 <= j < |cs| ==>
              Toggle(cs, id).state[j] ==
                if cs[j].id == id then cs[j].(isActive := !cs[j].isActive) else cs[j]
    ensures ValidCoupons(Toggle(cs, id).state, bound)
  {
    var o := Toggle(cs, id);
    if o.reply.Ok? {
      var k :| 0 <= k < |cs| && cs[k].id == id && o.state == cs[k := o.reply.value];
      forall j | 0 <= j < |cs| && j != k ensures cs[j].id != id {
        ValidIdsDistinct(cs, bound, j, k);
      }
      assert forall j :: 0 <= j < |cs| ==> CouponKey(o.state[j]) == CouponKey(cs[j]);
    }
  }

  /** Toggling the same coupon twice restores the collection. */
  lemma ToggleTwice(cs: seq<Coupon>, id: Id)
    ensures Toggle(Toggle(cs, id).state, id).state == cs
  {
    match Find(cs, IdIs(id))
    case None =>
    case Some(k) =>
      var once := Toggle(cs, id).state;
      assert forall j :: 0 <= j < |cs| ==> once[j].id == cs[j].id;
      assert Find(once, IdIs(id)) == Some(k);
      assert once[k := cs[k]] == cs;
  }

  /** POST /verify: the first coupon with the upper-cased code that is
      active and not yet expired; verify changes nothing. */
  function Verify(cs: seq<Coupon>, code: string, now: Timestamp): (r: Reply<CouponGrant>)
    ensures r.Ok? <==> exists k :: 0 <= k < |cs| && Usable(cs[k], ToUpper(code), now)
    ensures r.Ok? ==>
              exists k :: 0 <= k < |cs| && Usable(cs[k], ToUpper(code), now)
                && r.value == CouponGrant(cs[k].discountPercent, cs[k].code)
    ensures !r.Ok? ==> r == NotFound(InvalidCoupon)
  {
    match Find(cs, Redeemable(ToUpper(code), now))
    case None => NotFound(InvalidCoupon)
    case Some(k) => Ok(CouponGrant(cs[k].discountPercent, cs[k].code))
  }

  /** Verify ignores the case of the code it is given. */
  lemma VerifyCaseInsensitive(cs: seq<Coupon>, code: string, now: Timestamp)
    ensures Verify(cs, ToUpper(code), now) == Verify(cs, code, now)
  {
    UpperCaseFacts(code);
  }

  /** In a valid collection the grant is determined: any usable coupon with
      the code is the one verify reports, with its stored code and percent. */
  lemma VerifyReportsTheCoupon(cs: seq<Coupon>, bound: Id, code: string, now: Timestamp, k: nat)
    requires ValidCoupons(cs, bound)
    requires k < |cs| && Usable(cs[k], ToUpper(code), now)
    ensures Verify(cs, code, now) == Ok(CouponGrant(cs[k].discountPercent, cs[k].code))
  {
    var r := Verify(cs, code, now);
    var j :| 0 <= j < |cs| && Usable(cs[j], ToUpper(code), now)
               && r.value == CouponGrant(cs[j].discountPercent, cs[j].code);
  }
}
