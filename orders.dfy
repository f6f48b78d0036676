/** The handlers of backend/routes/orders.js: placing an order (which also
    moves the customer's loyalty balance), the two listings, the pickup-code
    lookup and the status overwrite. */
module OrderRoutes {
  import opened Common
  import opened Seqs
  import opened OrderModel
  import opened UserModel

  /** Stands for the message of the duplicate-key error the unique index on
      `pickupCode` raises. */
  const DuplicatePickupCode := "E11000 duplicate key error: pickupCode"
  /** Stands for the message of the TypeError raised when the requester's
      user document is gone. */
  const MissingUser := "Cannot read properties of null"
  const InvalidPickupCode := "Invalid pickup code"
  const OrderNotFound := "Order not found"

  /** The body of POST /. An absent `loyaltyPointsUsed` is `None`. The
      coupon fields are sent by the checkout page but never read. */
  datatype OrderRequest = OrderRequest(
    items: seq<OrderLine>,
    totalAmount: real,
    specialInstructions: string,
    loyaltyPointsUsed: Option<int>,
    couponApplied: Option<string>,
    discountAmount: real)

  /** The two collections order placement touches. */
  datatype Shop = Shop(orders: seq<Order>, users: seq<User>)

  predicate ValidShop(s: Shop, bound: Id) {
    ValidOrders(s.orders, bound) && ValidUsers(s.users, bound)
  }

  /** `loyaltyPointsUsed || 0`. */
  function PointsUsed(req: OrderRequest): (n: int)
    ensures req.loyaltyPointsUsed.Some? ==> n == req.loyaltyPointsUsed.value
    ensures req.loyaltyPointsUsed.None? ==> n == 0
  {
    match req.loyaltyPointsUsed
    case None => 0
    case Some(n) => n
  }

  /** `Math.floor(totalAmount / 10)`: the largest integer not above a tenth
      of the total. */
  function PointsEarned(total: real): (n: int)
    ensures n as real <= total / 10.0 < n as real + 1.0
  {
    (total / 10.0).Floor
  }

  /** The order document built from the request, its pickup code drawn by
      the pre-validate hook from `draw`. */
  function NewOrder(id: Id, requester: Id, req: OrderRequest, draw: real): (o: Order)
    requires 0.0 <= draw < 1.0
    ensures o.id == id && o.user == requester
    ensures o.items == req.items && o.totalAmount == req.totalAmount
    ensures o.specialInstructions == req.specialInstructions
    ensures o.loyaltyPointsUsed == PointsUsed(req)
    ensures o.loyaltyPointsEarned == PointsEarned(req.totalAmount)
    ensures o.status == Pending && IsOrderStatus(o.status) && o.paymentStatus == "pending"
    ensures o.estimatedTime == 20 && o.couponApplied == None && o.discountAmount == 0.0
    ensures o.pickupCode == PickupCodeFor(draw) && IsPickupCode(o.pickupCode)
  {
    var draft := Draft(id, requester, req.items, req.totalAmount, req.specialInstructions,
                       PointsUsed(req), PointsEarned(req.totalAmount));
    PreValidate(draft, draw)
  }

  /** The user after the order's points are settled: the redeemed points
      are taken off, the earned ones added, and nothing stops the balance
      from going below zero. */
  function Settle(u: User, used: int, earned: int): (u': User)
    ensures u'.loyaltyPoints - u.loyaltyPoints == earned - used
    ensures u' == u.(loyaltyPoints := u'.loyaltyPoints)
  {
    u.(loyaltyPoints := u.loyaltyPoints - used + earned)
  }

  /** POST /: save the new order, which fails on a pickup code already in
      use; then settle the requester's points. A requester whose document
      is gone makes the handler fail after the order was saved. */
  function Place(s: Shop, id: Id, requester: Id, req: OrderRequest, draw: real): (r: Outcome<Shop, Order>)
    requires 0.0 <= draw < 1.0
    ensures (exists k :: 0 <= k < |s.orders| && s.orders[k].pickupCode == PickupCodeFor(draw)) ==>
              r == Outcome(ServerError(DuplicatePickupCode), s)
    ensures (forall k :: 0 <= k < |s.orders| ==> s.orders[k].pickupCode != PickupCodeFor(draw)) ==>
              r.state.orders == s.orders + [NewOrder(id, requester, req, draw)]
    ensures r.reply.Ok? <==>
              && (forall k :: 0 <= k < |s.orders| ==> s.orders[k].pickupCode != PickupCodeFor(draw))
              && (exists k :: 0 <= k < |s.users| && s.users[k].id == requester)
    ensures r.reply.Ok? ==>
              && r.reply.value == NewOrder(id, requester, req, draw)
              && exists k :: 0 <= k < |s.users| && s.users[k].id == requester
                   && r.state.users == s.users[k := Settle(s.users[k], PointsUsed(req), PointsEarned(req.totalAmount))]
    ensures !r.reply.Ok? ==> r.reply.ServerError? && r.state.users == s.users
  {
    var o := NewOrder(id, requester, req, draw);
    if Find(s.orders, PickupIs(o.pickupCode)).Some? then Outcome(ServerError(DuplicatePickupCode), s)
    else
      var orders := s.orders + [o];
      match Find(s.users, UserIs(requester))
      case None => Outcome(ServerError(MissingUser), Shop(orders, s.users))
      case Some(k) =>
        var u := Settle(s.users[k], o.loyaltyPointsUsed, o.loyaltyPointsEarned);
        Outcome(Ok(o), Shop(orders, s.users[k := u]))
  }

  /** Placing an order keeps both collections valid. */
  lemma PlaceKeepsValid(s: Shop, id: Id, requester: Id, req: OrderRequest, draw: real)
    requires 0.0 <= draw < 1.0
    requires ValidShop(s, id)
    ensures ValidShop(Place(s, id, requester, req, draw).state, id + 1)
  {
    var r := Place(s, id, requester, req, draw);
    var us := s.users;
    var o := NewOrder(id, requester, req, draw);
    assert forall j :: 0 <= j < |us| ==> UserKey(us[j]) < id;
    assert ValidUsers(us, id + 1);
    if Find(s.orders, PickupIs(o.pickupCode)).Some? {
      assert forall j :: 0 <= j < |s.orders| ==> OrderKey(s.orders[j]) < id;
      assert r.state == s;
    } else {
      AppendOrderKeepsValid(s.orders, id, o);
      assert r.state.orders == s.orders + [o];
    }
    if r.reply.Ok? {
      var k :| 0 <= k < |us| && us[k].id == requester
                 && r.state.users == us[k := Settle(us[k], PointsUsed(req), PointsEarned(req.totalAmount))];
      ReplaceSameEmailKeepsValid(us, id + 1, k, Settle(us[k], PointsUsed(req), PointsEarned(req.totalAmount)));
    }
  }

  /** In a valid shop a placed order moves the requester's balance by
      `earned - used` and leaves every other user alone. */
  lemma PlaceSettlesRequesterOnly(s: Shop, id: Id, requester: Id, req: OrderRequest, draw: real)
    requires 0.0 <= draw < 1.0
    requires ValidShop(s, id)
    requires Place(s, id, requester, req, draw).reply.Ok?
    ensures |Place(s, id, requester, req, draw).state.users| == |s.users|
    ensures forall j :: 0 <= j < |s.users| ==>
              Place(s, id, requester, req, draw).state.users[j] ==
                if s.users[j].id == requester
                then s.users[j].(loyaltyPoints := s.users[j].loyaltyPoints - PointsUsed(req) + PointsEarned(req.totalAmount))
                else s.users[j]
  {
    var r := Place(s, id, requester, req, draw);
    var us := s.users;
    var found := Find(us, UserIs(requester));
    assert found.Some?;
    var k := found.value;
    assert r.state.users == us[k := Settle(us[k], PointsUsed(req), PointsEarned(req.totalAmount))];
    SettleOneUser(us, id, k, PointsUsed(req), PointsEarned(req.totalAmount));
  }

  /** Settling the user at `k` touches no user with another id. */
  lemma SettleOneUser(us: seq<User>, bound: Id, k: nat, used: int, earned: int)
    requires ValidUsers(us, bound) && k < |us|
    ensures forall j :: 0 <= j < |us| ==>
              us[k := Settle(us[k], used, earned)][j] ==
                if us[j].id == us[k].id then us[j].(loyaltyPoints := us[j].loyaltyPoints - used + earned) else us[j]
  {
    forall j | 0 <= j < |us| && j != k ensures us[j].id != us[k].id {
      ValidUserIdsDistinct(us, bound, j, k);
    }
  }

  /** The balance has no lower bound: a customer with no points who redeems
      five on an order of 30 ends at -2. */
  lemma BalanceCanGoNegative(s: Shop, id: Id, k: nat, req: OrderRequest, draw: real)
    requires 0.0 <= draw < 1.0
    requires ValidShop(s, id) && s.orders == []
    requires k < |s.users| && s.users[k].loyaltyPoints == 0
    requires req.loyaltyPointsUsed == Some(5) && req.totalAmount == 30.0
    ensures Place(s, id, s.users[k].id, req, draw).reply.Ok?
    ensures Place(s, id, s.users[k].id, req, draw).state.users[k].loyaltyPoints == -2
  {
    FoundUserIsUnique(s.users, id, k);
    assert PointsEarned(30.0) == 3;
  }

  /** The coupon fields of the request have no effect on what is stored or
      answered. */
  lemma PlaceIgnoresCouponFields(s: Shop, id: Id, requester: Id, req: OrderRequest, draw: real,
                                 coupon: Option<string>, discount: real)
    requires 0.0 <= draw < 1.0
    ensures Place(s, id, requester, req.(couponApplied := coupon, discountAmount := discount), draw)
         == Place(s, id, requester, req, draw)
  {
    var req' := req.(couponApplied := coupon, discountAmount := discount);
    assert NewOrder(id, requester, req', draw) == NewOrder(id, requester, req, draw);
  }

  /** The orders the requester placed. */
  function PlacedBy(u: Id): Order -> bool {
    (o: Order) => o.user == u
  }

  /** GET /my-orders: the requester's orders, newest first. */
  function MyOrders(os: seq<Order>, u: Id): (r: seq<Order>)
    ensures |r| <= |os|
  {
    Reverse(Filter(os, PlacedBy(u)))
  }

  /** my-orders holds exactly the requester's orders, newest first. */
  lemma MyOrdersExactly(os: seq<Order>, bound: Id, u: Id)
    requires ValidOrders(os, bound)
    ensures forall o :: o in MyOrders(os, u) <==> o in os && o.user == u
    ensures Descending(MyOrders(os, u), OrderKey)
  {
    var mine := Filter(os, PlacedBy(u));
    FilterMembership(os, PlacedBy(u));
    ReverseMembers(mine);
    FilterKeepsAscending(os, PlacedBy(u), OrderKey);
    ReverseOfAscending(mine, OrderKey);
  }

  /** GET /admin: every order, newest first. */
  function AllOrders(os: seq<Order>): (r: seq<Order>)
    ensures |r| == |os|
    ensures forall k :: 0 <= k < |os| ==> r[k] == os[|os| - 1 - k]
  {
    Reverse(os)
  }

  lemma AllOrdersNewestFirst(os: seq<Order>, bound: Id)
    requires ValidOrders(os, bound)
    ensures Descending(AllOrders(os), OrderKey)
    ensures forall o :: o in AllOrders(os) <==> o in os
  {
    ReverseOfAscending(os, OrderKey);
    ReverseMembers(os);
  }

  /** POST /verify-code: the order whose pickup code equals the input
      exactly. */
  function FindByPickupCode(os: seq<Order>, code: string): (r: Reply<Order>)
    ensures r.Ok? <==> exists k :: 0 <= k < |os| && os[k].pickupCode == code
    ensures r.Ok? ==> r.value in os && r.value.pickupCode == code
    ensures !r.Ok? ==> r == NotFound(InvalidPickupCode)
  {
    match Find(os, PickupIs(code))
    case None => NotFound(InvalidPickupCode)
    case Some(k) => Ok(os[k])
  }

  /** Pickup codes being unique, the lookup finds the one order with the code. */
  lemma PickupLookupFindsTheOrder(os: seq<Order>, bound: Id, k: nat)
    requires ValidOrders(os, bound) && k < |os|
    ensures FindByPickupCode(os, os[k].pickupCode) == Ok(os[k])
  {
    var r := Find(os, PickupIs(os[k].pickupCode));
    assert r.Some?;
  }

  /** PUT /:id/status: overwrite the status of the order with that id. The
      update does not run the schema validators, so any string is stored. */
  function UpdateStatus(os: seq<Order>, id: Id, status: string): (r: Outcome<seq<Order>, Order>)
    ensures r.reply.NotFound? <==> forall k :: 0 <= k < |os| ==> os[k].id != id
    ensures r.reply.NotFound? ==> r == Outcome(NotFound(OrderNotFound), os)
    ensures r.reply.Ok? || r.reply.NotFound?
    ensures r.reply.Ok? ==>
              exists k :: 0 <= k < |os| && os[k].id == id
                && r.reply.value == os[k].(status := status)
                && r.state == os[k := r.reply.value]
  {
    match Find(os, OrderIs(id))
    case None => Outcome(NotFound(OrderNotFound), os)
    case Some(k) =>
      var o := os[k].(status := status);
      Outcome(Ok(o), os[k := o])
  }

  /** In a valid collection the update changes the status of that order
      only, and keeps the collection valid. */
  lemma UpdateStatusChangesOnlyThat(os: seq<Order>, bound: Id, id: Id, status: string)
    requires ValidOrders(os, bound)
    ensures |UpdateStatus(os, id, status).state| == |os|
    ensures forall j :: 0 <= j < |os| ==>
              UpdateStatus(os, id, status).state[j] ==
                if os[j].id == id then os[j].(status := status) else os[j]
    ensures ValidOrders(UpdateStatus(os, id, status).state, bound)
  {
    var r := UpdateStatus(os, id, status);
    if r.reply.Ok? {
      var k :| 0 <= k < |os| && os[k].id == id && r.state == os[k := r.reply.value];
      forall j | 0 <= j < |os| && j != k ensures os[j].id != id {
        ValidOrderIdsDistinct(os, bound, j, k);
      }
      ReplaceOrderKeepsValid(os, bound, k, r.reply.value);
    }
  }

  /** Applying the same status update twice is applying it once. */
  lemma UpdateStatusIdempotent(os: seq<Order>, id: Id, status: string)
    ensures UpdateStatus(UpdateStatus(os, id, status).state, id, status) == UpdateStatus(os, id, status)
  {
    match Find(os, OrderIs(id))
    case None =>
    case Some(k) =>
      var once := UpdateStatus(os, id, status).state;
      assert forall j :: 0 <= j < |os| ==> once[j].id == os[j].id;
      assert Find(once, OrderIs(id)) == Some(k);
      assert once[k := once[k].(status := status)] == once;
  }

  /** The status need not be one of the enum values after an update. */
  lemma UpdateStatusStoresAnyString(os: seq<Order>, bound: Id, k: nat)
    requires ValidOrders(os, bound) && k < |os|
    ensures UpdateStatus(os, os[k].id, "lost").reply == Ok(os[k].(status := "lost"))
    ensures !IsOrderStatus("lost")
  {
    FoundOrderIsUnique(os, bound, k);
  }
}
