/** The order document of backend/models/Order.js: its fields, the status
    and payment enums, the schema defaults and the pre-validate hook that
    draws a pickup code. */
module OrderModel {
  import opened Common
  import opened Seqs

  const Pending := "pending"
  const Confirmed := "confirmed"
  const Preparing := "preparing"
  const Ready := "ready"
  const Completed := "completed"
  const Cancelled := "cancelled"

  /** The `status` enum, in schema order. */
  const OrderStatuses: seq<string> := [Pending, Confirmed, Preparing, Ready, Completed, Cancelled]

  /** The `paymentStatus` enum. */
  const PaymentStatuses: seq<string> := ["pending", "paid", "failed"]

  predicate IsOrderStatus(s: string) {
    s in OrderStatuses
  }

  /** One entry of `items`: the menu item, the quantity and the unit price
      captured when the order was placed. */
  datatype OrderLine = OrderLine(menuItem: Id, quantity: int, price: real)

  datatype Order = Order(
    id: Id,
    user: Id,
    items: seq<OrderLine>,
    totalAmount: real,
    pickupCode: string,
    status: string,
    paymentStatus: string,
    estimatedTime: int,
    specialInstructions: string,
    loyaltyPointsUsed: int,
    loyaltyPointsEarned: int,
    couponApplied: Option<string>,
    discountAmount: real)

  /** A freshly built order document: the fields supplied by the caller,
      every other field at its schema default, and no pickup code yet. */
  function Draft(id: Id, user: Id, items: seq<OrderLine>, totalAmount: real,
                 specialInstructions: string, pointsUsed: int, pointsEarned: int): (o: Order)
    ensures IsOrderStatus(o.status) && o.status == Pending
    ensures o.paymentStatus in PaymentStatuses && o.paymentStatus == "pending"
    ensures o.estimatedTime == 20
    ensures o.couponApplied == None && o.discountAmount == 0.0
    ensures o.pickupCode == ""
    ensures o.id == id && o.user == user && o.items == items && o.totalAmount == totalAmount
    ensures o.specialInstructions == specialInstructions
    ensures o.loyaltyPointsUsed == pointsUsed && o.loyaltyPointsEarned == pointsEarned
  {
    Order(id, user, items, totalAmount, "", Pending, "pending", 20,
          specialInstructions, pointsUsed, pointsEarned, None, 0.0)
  }

  predicate IsDigit(c: char) {
    '0' <= c <= '9'
  }

  predicate AllDigits(s: string) {
    forall i :: 0 <= i < |s| ==> IsDigit(s[i])
  }

  function DigitChar(d: nat): (c: char)
    requires d < 10
    ensures IsDigit(c)
  {
    ('0' as int + d) as char
  }

  /** `n.toString()` for a non-negative integer. */
  function DecimalString(n: nat): string {
    if n < 10 then [DigitChar(n)] else DecimalString(n / 10) + [DigitChar(n % 10)]
  }

  /** The number a string of decimal digits denotes. */
  function DecimalValue(s: string): nat
    requires AllDigits(s)
  {
    if |s| == 0 then 0
    else DecimalValue(s[..|s| - 1]) * 10 + (s[|s| - 1] as int - '0' as int)
  }

  /** A pickup code: the decimal form of an integer in 1000..9999, that is,
      exactly four digits with no leading zero. */
  predicate IsPickupCode(s: string) {
    |s| == 4 && AllDigits(s) && s[0] != '0'
  }

  /** `DecimalString` produces digits without a leading zero, and reading
      them back gives the number. */
  lemma {:induction false} DecimalStringRoundTrip(n: nat)
    ensures AllDigits(DecimalString(n))
    ensures |DecimalString(n)| > 0 && (n >= 10 ==> DecimalString(n)[0] != '0')
    ensures DecimalValue(DecimalString(n)) == n
    decreases n
  {
    if n >= 10 {
      DecimalStringRoundTrip(n / 10);
      var s := DecimalString(n);
      assert s[..|s| - 1] == DecimalString(n / 10);
    }
  }

  /** The number of digits of `n`. */
  lemma {:induction false} DecimalStringLength(n: nat)
    ensures n < 10 ==> |DecimalString(n)| == 1
    ensures 10 <= n < 100 ==> |DecimalString(n)| == 2
    ensures 100 <= n < 1000 ==> |DecimalString(n)| == 3
    ensures 1000 <= n < 10000 ==> |DecimalString(n)| == 4
    ensures n >= 10000 ==> |DecimalString(n)| > 4
    decreases n
  {
    if n >= 10 {
      DecimalStringLength(n / 10);
    }
  }

  /** A digit string with no leading zero denotes a positive number. */
  lemma {:induction false} LeadingDigitPositive(s: string)
    requires |s| > 0 && AllDigits(s) && s[0] != '0'
    ensures DecimalValue(s) > 0
    decreases |s|
  {
    if |s| > 1 {
      LeadingDigitPositive(s[..|s| - 1]);
    }
  }

  /** A digit string with no leading zero is the decimal form of its value. */
  lemma {:induction false} DecimalValueRoundTrip(s: string)
    requires |s| > 0 && AllDigits(s) && (|s| > 1 ==> s[0] != '0')
    ensures DecimalString(DecimalValue(s)) == s
    decreases |s|
  {
    var p := s[..|s| - 1];
    var d := s[|s| - 1] as int - '0' as int;
    if |s| > 1 {
      LeadingDigitPositive(p);
      DecimalValueRoundTrip(p);
      var n := DecimalValue(s);
      assert n == DecimalValue(p) * 10 + d && n >= 10;
      assert n / 10 == DecimalValue(p) && n % 10 == d;
      assert p + [s[|s| - 1]] == s;
    } else {
      assert [s[0]] == s;
    }
  }

  /** The value `Math.floor(1000 + r * 9000)` for a draw `r` of
      `Math.random()`. */
  function PickupNumber(r: real): (n: nat)
    requires 0.0 <= r < 1.0
    ensures 1000 <= n <= 9999
  {
    var x := 1000.0 + r * 9000.0;
    assert 1000.0 <= x < 10000.0;
    x.Floor
  }

  /** The code the hook assigns for draw `r`: always a pickup code. */
  function PickupCodeFor(r: real): (code: string)
    requires 0.0 <= r < 1.0
    ensures IsPickupCode(code)
    ensures 1000 <= DecimalValue(code) <= 9999
  {
    var n := PickupNumber(r);
    DecimalStringRoundTrip(n);
    DecimalStringLength(n);
    DecimalString(n)
  }

  /** Every pickup code can be drawn, whatever codes are already stored:
      the generator neither avoids nor retries on a code in use. */
  lemma EveryCodeCanBeDrawn(code: string)
    requires IsPickupCode(code)
    ensures exists r: real :: 0.0 <= r < 1.0 && PickupCodeFor(r) == code
  {
    LeadingDigitPositive(code);
    DecimalValueRoundTrip(code);
    var n := DecimalValue(code);
    DecimalStringLength(n);
    var r := (n - 1000) as real / 9000.0;
    assert 1000.0 + r * 9000.0 == n as real;
    assert PickupNumber(r) == n;
    assert PickupCodeFor(r) == code;
  }

  /** Distinct draws of the number give distinct codes. */
  lemma PickupCodeInjective(r1: real, r2: real)
    requires 0.0 <= r1 < 1.0 && 0.0 <= r2 < 1.0
    ensures PickupCodeFor(r1) == PickupCodeFor(r2) <==> PickupNumber(r1) == PickupNumber(r2)
  {
    DecimalStringRoundTrip(PickupNumber(r1));
    DecimalStringRoundTrip(PickupNumber(r2));
  }

  /** The pre-validate hook: an order without a pickup code gets one drawn
      from `r`; an order that has one keeps it. Nothing else changes. */
  function PreValidate(o: Order, r: real): (o': Order)
    requires 0.0 <= r < 1.0
    ensures o' == o.(pickupCode := o'.pickupCode)
    ensures o.pickupCode != "" ==> o'.pickupCode == o.pickupCode
    ensures o.pickupCode == "" ==> IsPickupCode(o'.pickupCode)
  {
    if o.pickupCode == "" then o.(pickupCode := PickupCodeFor(r)) else o
  }

  function OrderKey(o: Order): int {
    o.id
  }

  /** The unique index on `pickupCode`. */
  predicate UniquePickupCodes(os: seq<Order>) {
    forall i, j :: 0 <= i < j < |os| ==> os[i].pickupCode != os[j].pickupCode
  }

  /** The stored orders: every pickup code is a four-digit code and unique,
      and ids strictly increase in storage order and stay below the next id
      to be handed out. */
  predicate ValidOrders(os: seq<Order>, bound: Id) {
    && (forall k :: 0 <= k < |os| ==> IsPickupCode(os[k].pickupCode))
    && UniquePickupCodes(os)
    && Ascending(os, OrderKey)
    && KeysBelow(os, OrderKey, bound)
  }

  function OrderIs(id: Id): Order -> bool {
    (o: Order) => o.id == id
  }

  function PickupIs(code: string): Order -> bool {
    (o: Order) => o.pickupCode == code
  }

  lemma ValidOrderIdsDistinct(os: seq<Order>, bound: Id, i: nat, j: nat)
    requires ValidOrders(os, bound)
    requires i < |os| && j < |os| && i != j
    ensures os[i].id != os[j].id
  {
    if i < j {
      assert OrderKey(os[i]) < OrderKey(os[j]);
    } else {
      assert OrderKey(os[j]) < OrderKey(os[i]);
    }
  }

  /** Replacing an order by one with the same id and pickup code keeps the
      collection valid. */
  lemma ReplaceOrderKeepsValid(os: seq<Order>, bound: Id, k: nat, o: Order)
    requires ValidOrders(os, bound) && k < |os|
    requires o.id == os[k].id && o.pickupCode == os[k].pickupCode
    ensures ValidOrders(os[k := o], bound)
  {
    var r := os[k := o];
    assert forall j :: 0 <= j < |os| ==> OrderKey(r[j]) == OrderKey(os[j]) && r[j].pickupCode == os[j].pickupCode;
  }

  /** Appending an order with the next id and an unused four-digit code
      keeps the collection valid under the raised bound. */
  lemma AppendOrderKeepsValid(os: seq<Order>, bound: Id, o: Order)
    requires ValidOrders(os, bound)
    requires o.id == bound && IsPickupCode(o.pickupCode)
    requires forall j :: 0 <= j < |os| ==> os[j].pickupCode != o.pickupCode
    ensures ValidOrders(os + [o], bound + 1)
  {
    assert forall j :: 0 <= j < |os| ==> OrderKey(os[j]) < bound;
  }

  /** In a valid collection the order found by id is the only one with
      that id. */
  lemma FoundOrderIsUnique(os: seq<Order>, bound: Id, k: nat)
    requires ValidOrders(os, bound) && k < |os|
    ensures Find(os, OrderIs(os[k].id)) == Some(k)
  {
    forall j | 0 <= j < k ensures !OrderIs(os[k].id)(os[j]) {
      ValidOrderIdsDistinct(os, bound, j, k);
    }
  }
}
