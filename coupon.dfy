/** The coupon document of backend/models/Coupon.js and the invariant its
    schema keeps over the stored collection. */
module CouponModel {
  import opened Common
  import opened Text
  import opened Seqs

  datatype Coupon = Coupon(
    id: Id,
    code: string,
    discountPercent: int,
    isActive: bool,
    expiresAt: Timestamp,
    createdBy: Id)

  /** A new coupon document: `isActive` takes its schema default. */
  function NewCoupon(id: Id, code: string, percent: int, expiresAt: Timestamp, creator: Id): (c: Coupon)
    ensures c.isActive
    ensures c.id == id && c.code == code && c.discountPercent == percent
    ensures c.expiresAt == expiresAt && c.createdBy == creator
  {
    Coupon(id, code, percent, true, expiresAt, creator)
  }

  /** The field validators: the code is required (so not empty) and kept in
      upper case, and the percentage lies in 1..100. Every coupon has an
      expiry by construction of the datatype. */
  predicate WellFormed(c: Coupon) {
    |c.code| > 0 && IsUpperCase(c.code) && 1 <= c.discountPercent <= 100
  }

  /** The unique index on `code`. */
  predicate UniqueCodes(cs: seq<Coupon>) {
    forall i, j :: 0 <= i < j < |cs| ==> cs[i].code != cs[j].code
  }

  function CouponKey(c: Coupon): int {
    c.id
  }

  /** The stored collection: every document passes its validators, codes
      are unique, and ids strictly increase in storage order and stay below
      the next id to be handed out. */
  predicate ValidCoupons(cs: seq<Coupon>, bound: Id) {
    && (forall k :: 0 <= k < |cs| ==> WellFormed(cs[k]))
    && UniqueCodes(cs)
    && Ascending(cs, CouponKey)
    && KeysBelow(cs, CouponKey, bound)
  }

  /** The document with this id, as `findById` finds it. */
  function IdIs(id: Id): Coupon -> bool {
    (c: Coupon) => c.id == id
  }

  /** Every document except the one with this id. */
  function NotCoupon(id: Id): Coupon -> bool {
    (c: Coupon) => c.id != id
  }

  /** Ids are distinct in a valid collection. */
  lemma ValidIdsDistinct(cs: seq<Coupon>, bound: Id, i: nat, j: nat)
    requires ValidCoupons(cs, bound)
    requires i < |cs| && j < |cs| && i != j
    ensures cs[i].id != cs[j].id
  {
    if i < j {
      assert CouponKey(cs[i]) < CouponKey(cs[j]);
    } else {
      assert CouponKey(cs[j]) < CouponKey(cs[i]);
    }
  }

  /** The part of the invariant about each document and the ids survives
      removing documents, so only the ordering needs care. */
  lemma {:induction false} ValidCouponsFilter(cs: seq<Coupon>, bound: Id, p: Coupon -> bool)
    requires ValidCoupons(cs, bound)
    ensures ValidCoupons(Filter(cs, p), bound)
  {
    var r := Filter(cs, p);
    FilterMembership(cs, p);
    FilterIsSubsequence(cs, p);
    FilterKeepsAscending(cs, p, CouponKey);
    forall k | 0 <= k < |r| ensures WellFormed(r[k]) && CouponKey(r[k]) < bound {
      assert r[k] in cs;
    }
    forall i, j | 0 <= i < j < |r| ensures r[i].code != r[j].code {
      assert r[i] in cs && r[j] in cs;
      var a :| 0 <= a < |cs| && cs[a] == r[i];
      var b :| 0 <= b < |cs| && cs[b] == r[j];
      assert CouponKey(r[i]) < CouponKey(r[j]);
      assert a != b;
    }
  }
}
