/** The back office as one object: the coupon, order and user collections
    of the database, one method per route handler of backend/routes/. Each
    method takes the steps its handler takes (look the document up, check,
    assign, save) and is proved to leave the collections as the route's
    transition function says, keeping the store invariant. The clock, the
    random draws and the Google ticket check are parameters; the password
    comparison of the user model is the function `passwordMatches`. */
module BackOffice {
  import opened Common
  import opened Text
  import opened Seqs
  import opened CouponModel
  import opened OrderModel
  import opened UserModel
  import CouponRoutes
  import OrderRoutes
  import UserRoutes
  import AdminRoutes
  import AuthRoutes

  class Store {
    var coupons: seq<Coupon>
    var orders: seq<Order>
    var users: seq<User>
    /** The next document id: ids are handed out in increasing order, one
        for every request that may create a document. */
    var nextId: Id
    /** `passwordMatches(candidate, stored)`: the user model's password
        comparison. */
    const passwordMatches: (string, string) -> bool

    /** Each collection satisfies its schema's invariant. */
    ghost predicate Valid()
      reads this
    {
      && ValidCoupons(coupons, nextId)
      && ValidOrders(orders, nextId)
      && ValidUsers(users, nextId)
    }

    constructor (passwordMatches: (string, string) -> bool)
      ensures Valid()
      ensures coupons == [] && orders == [] && users == []
      ensures this.passwordMatches == passwordMatches
    {
      coupons := [];
      orders := [];
      users := [];
      nextId := 0;
      this.passwordMatches := passwordMatches;
    }

    /** Taking a fresh id keeps every collection below the bound. */
    method TakeId() returns (id: Id)
      requires Valid()
      modifies this`nextId
      ensures id == old(nextId) && nextId == id + 1
      ensures Valid()
    {
      id := nextId;
      nextId := nextId + 1;
      assert forall k :: 0 <= k < |coupons| ==> CouponKey(coupons[k]) < id;
      assert forall k :: 0 <= k < |orders| ==> OrderKey(orders[k]) < id;
      assert forall k :: 0 <= k < |users| ==> UserKey(users[k]) < id;
    }

    // ---- backend/routes/coupons.js ----

    method CreateCoupon(requester: Id, code: string, percent: int, expiresAt: Timestamp)
      returns (reply: Reply<Coupon>)
      requires Valid()
      modifies this`coupons, this`nextId
      ensures Valid() && nextId == old(nextId) + 1
      ensures Outcome(reply, coupons) ==
                CouponRoutes.Create(old(coupons), old(nextId), code, percent, expiresAt, requester)
    {
      var up := ToUpper(code);
      var existing := Find(coupons, CouponRoutes.WithCode(up));
      CouponRoutes.CreateKeepsValid(coupons, nextId, code, percent, expiresAt, requester);
      var id := TakeId();
      if existing.Some? {
        return BadRequest(CouponRoutes.CodeExists);
      }
      var coupon := NewCoupon(id, up, percent, expiresAt, requester);
      UpperCaseFacts(code);
      if !WellFormed(coupon) {
        return ServerError(CouponRoutes.CouponValidationFailed);
      }
      coupons := coupons + [coupon];
      reply := Ok(coupon);
    }

    method AdminCoupons() returns (listing: seq<Coupon>)
      requires Valid()
      ensures listing == CouponRoutes.List(coupons)
      ensures Descending(listing, CouponKey)
      ensures forall c :: c in listing <==> c in coupons
    {
      listing := Reverse(coupons);
      CouponRoutes.ListNewestFirst(coupons, nextId);
    }

    method DeleteCoupon(id: Id) returns (reply: Reply<string>)
      requires Valid()
      modifies this`coupons
      ensures Valid()
      ensures Outcome(reply, coupons) == CouponRoutes.Delete(old(coupons), id)
      ensures coupons == Filter(old(coupons), NotCoupon(id))
    {
      CouponRoutes.DeleteRemovesExactly(coupons, nextId, id);
      var found := Find(coupons, IdIs(id));
      if found.None? {
        return NotFound(CouponRoutes.CouponNotFound);
      }
      var k := found.value;
      coupons := coupons[..k] + coupons[k + 1..];
      reply := Ok(CouponRoutes.CouponDeleted);
    }

    method ToggleCoupon(id: Id) returns (reply: Reply<Coupon>)
      requires Valid()
      modifies this`coupons
      ensures Valid()
      ensures Outcome(reply, coupons) == CouponRoutes.Toggle(old(coupons), id)
    {
      CouponRoutes.ToggleFlipsOnlyThat(coupons, nextId, id);
      var found := Find(coupons, IdIs(id));
      if found.None? {
        return NotFound(CouponRoutes.CouponNotFound);
      }
      var k := found.value;
      var coupon := coupons[k];
      coupon := coupon.(isActive := !coupon.isActive);
      coupons := coupons[k := coupon];
      reply := Ok(coupon);
    }

    method VerifyCoupon(code: string, now: Timestamp) returns (reply: Reply<CouponRoutes.CouponGrant>)
      ensures reply == CouponRoutes.Verify(coupons, code, now)
      ensures reply.Ok? ==> reply.value.code == ToUpper(code)
    {
      var found := Find(coupons, CouponRoutes.Redeemable(ToUpper(code), now));
      if found.None? {
        return NotFound(CouponRoutes.InvalidCoupon);
      }
      var coupon := coupons[found.value];
      reply := Ok(CouponRoutes.CouponGrant(coupon.discountPercent, coupon.code));
    }

    // ---- backend/routes/orders.js ----

    /** `order.save()` for a new order with the id just taken and an unused
        pickup code. */
    method SaveNewOrder(order: Order)
      requires Valid() && order.id + 1 == nextId && IsPickupCode(order.pickupCode)
      requires ValidOrders(orders, order.id)
      requires forall j :: 0 <= j < |orders| ==> orders[j].pickupCode != order.pickupCode
      modifies this`orders
      ensures Valid() && orders == old(orders) + [order]
    {
      AppendOrderKeepsValid(orders, order.id, order);
      orders := orders + [order];
    }

    method PlaceOrder(requester: Id, req: OrderRoutes.OrderRequest, draw: real) returns (reply: Reply<Order>)
      requires Valid() && 0.0 <= draw < 1.0
      modifies this`orders, this`users, this`nextId
      ensures Valid() && nextId == old(nextId) + 1
      ensures Outcome(reply, OrderRoutes.Shop(orders, users)) ==
                OrderRoutes.Place(OrderRoutes.Shop(old(orders), old(users)), old(nextId), requester, req, draw)
    {
      assert ValidOrders(orders, nextId);
      var id := TakeId();
      var order := OrderRoutes.NewOrder(id, requester, req, draw);
      if Find(orders, PickupIs(order.pickupCode)).Some? {
        return ServerError(OrderRoutes.DuplicatePickupCode);
      }
      SaveNewOrder(order);
      var found := Find(users, UserIs(requester));
      if found.None? {
        return ServerError(OrderRoutes.MissingUser);
      }
      var k := found.value;
      SaveUserAt(k, OrderRoutes.Settle(users[k], OrderRoutes.PointsUsed(req), order.loyaltyPointsEarned));
      reply := Ok(order);
    }

    method MyOrders(requester: Id) returns (listing: seq<Order>)
      requires Valid()
      ensures listing == OrderRoutes.MyOrders(orders, requester)
      ensures forall o :: o in listing <==> o in orders && o.user == requester
      ensures Descending(listing, OrderKey)
    {
      listing := Reverse(Filter(orders, OrderRoutes.PlacedBy(requester)));
      OrderRoutes.MyOrdersExactly(orders, nextId, requester);
    }

    method AllOrders() returns (listing: seq<Order>)
      requires Valid()
      ensures listing == OrderRoutes.AllOrders(orders)
      ensures forall o :: o in listing <==> o in orders
      ensures Descending(listing, OrderKey)
    {
      listing := Reverse(orders);
      OrderRoutes.AllOrdersNewestFirst(orders, nextId);
    }

    method VerifyPickupCode(code: string) returns (reply: Reply<Order>)
      ensures reply == OrderRoutes.FindByPickupCode(orders, code)
      ensures reply.Ok? ==> reply.value in orders && reply.value.pickupCode == code
    {
      var found := Find(orders, PickupIs(code));
      if found.None? {
        return NotFound(OrderRoutes.InvalidPickupCode);
      }
      reply := Ok(orders[found.value]);
    }

    method UpdateOrderStatus(id: Id, status: string) returns (reply: Reply<Order>)
      requires Valid()
      modifies this`orders
      ensures Valid()
      ensures Outcome(reply, orders) == OrderRoutes.UpdateStatus(old(orders), id, status)
    {
      OrderRoutes.UpdateStatusChangesOnlyThat(orders, nextId, id, status);
      var found := Find(orders, OrderIs(id));
      if found.None? {
        return NotFound(OrderRoutes.OrderNotFound);
      }
      var k := found.value;
      var order := orders[k].(status := status);
      orders := orders[k := order];
      reply := Ok(order);
    }

    // ---- backend/routes/users.js ----

    /** `user.save()` for a user document whose id and email are unchanged. */
    method SaveUserAt(k: nat, user: User)
      requires Valid() && k < |users| && user.id == users[k].id && user.email == users[k].email
      modifies this`users
      ensures Valid() && users == old(users)[k := user]
    {
      ReplaceSameEmailKeepsValid(users, nextId, k, user);
      users := users[k := user];
    }

    /** `user.save()` for a new user with the id just taken and an email
        nobody holds. */
    method SaveNewUser(user: User)
      requires Valid() && user.id + 1 == nextId && ValidUsers(users, user.id)
      requires forall j :: 0 <= j < |users| ==> users[j].email != user.email
      modifies this`users
      ensures Valid() && users == old(users) + [user]
    {
      AppendKeepsValid(users, user.id, user);
      users := users + [user];
    }

    method ToggleFavorite(requester: Id, item: Id) returns (reply: Reply<seq<Id>>)
      requires Valid()
      modifies this`users
      ensures Valid()
      ensures Outcome(reply, users) == UserRoutes.Favorite(old(users), requester, item)
    {
      var found := Find(users, UserIs(requester));
      if found.None? {
        return ServerError(UserRoutes.MissingUser);
      }
      var k := found.value;
      var user := users[k];
      if item in user.favoriteItems {
        user := user.(favoriteItems := Filter(user.favoriteItems, UserRoutes.NotItem(item)));
      } else {
        user := user.(favoriteItems := user.favoriteItems + [item]);
      }
      SaveUserAt(k, user);
      reply := Ok(user.favoriteItems);
    }

    method LoyaltyPoints(requester: Id) returns (reply: Reply<int>)
      ensures reply == UserRoutes.LoyaltyPoints(users, requester)
    {
      var found := Find(users, UserIs(requester));
      if found.None? {
        return ServerError(UserRoutes.MissingUser);
      }
      reply := Ok(users[found.value].loyaltyPoints);
    }

    // ---- backend/routes/admin.js ----

    method UpdateAdminProfile(adminId: Id, edit: AdminRoutes.ProfileEdit) returns (reply: Reply<AdminRoutes.AdminView>)
      requires Valid()
      modifies this`users
      ensures Valid()
      ensures Outcome(reply, users) == AdminRoutes.UpdateProfile(old(users), adminId, edit, passwordMatches)
    {
      AdminRoutes.UpdateProfileKeepsValid(users, nextId, adminId, edit, passwordMatches);
      var found := Find(users, UserIs(adminId));
      if found.None? {
        return ServerError(AdminRoutes.MissingAdmin);
      }
      var k := found.value;
      var admin := users[k];
      if edit.currentPassword != "" && !passwordMatches(edit.currentPassword, admin.password) {
        return BadRequest(AdminRoutes.WrongPassword);
      }
      if edit.email != "" && edit.email != admin.email {
        if Find(users, AdminRoutes.HeldByOther(edit.email, admin.id)).Some? {
          return BadRequest(AdminRoutes.EmailInUse);
        }
        admin := admin.(email := edit.email);
      }
      if edit.name != "" {
        admin := admin.(name := edit.name);
      }
      if edit.newPassword != "" {
        admin := admin.(password := edit.newPassword);
      }
      users := users[k := admin];
      reply := Ok(AdminRoutes.ViewOf(admin));
    }

    // ---- backend/routes/auth.js ----

    method Register(reg: AuthRoutes.Registration) returns (reply: Reply<AuthRoutes.UserView>)
      requires Valid()
      modifies this`users, this`nextId
      ensures Valid() && nextId == old(nextId) + 1
      ensures Outcome(reply, users) == AuthRoutes.Register(old(users), old(nextId), reg)
    {
      assert ValidUsers(users, nextId);
      var existing := Find(users, EmailIs(reg.email));
      var id := TakeId();
      if existing.Some? {
        return BadRequest(AuthRoutes.UserExists);
      }
      var user := NewUser(id, reg.name, reg.email, reg.password, reg.phone, reg.address);
      SaveNewUser(user);
      reply := Ok(AuthRoutes.UserView(id, reg.name, reg.email, user.role));
    }

    method Login(email: string, password: string, now: Timestamp) returns (reply: Reply<AuthRoutes.UserView>)
      requires Valid()
      modifies this`users
      ensures Valid()
      ensures Outcome(reply, users) == AuthRoutes.Login(old(users), email, password, now, passwordMatches)
    {
      var found := Find(users, EmailIs(email));
      if found.None? || !passwordMatches(password, users[found.value].password) {
        return BadRequest(AuthRoutes.InvalidCredentials);
      }
      var k := found.value;
      var user := users[k].(lastLogin := Some(now));
      SaveUserAt(k, user);
      reply := Ok(AuthRoutes.UserView(user.id, user.name, email, user.role));
    }

    method GoogleLogin(ticket: Option<AuthRoutes.GoogleProfile>, randomPassword: string, now: Timestamp)
      returns (reply: Reply<AuthRoutes.GoogleView>)
      requires Valid()
      modifies this`users, this`nextId
      ensures Valid() && nextId == old(nextId) + 1
      ensures Outcome(reply, users) == AuthRoutes.GoogleLogin(old(users), old(nextId), ticket, randomPassword, now)
    {
      assert ValidUsers(users, nextId);
      var id := TakeId();
      if ticket.None? {
        return ServerError(AuthRoutes.AuthenticationFailed);
      }
      var profile := ticket.value;
      var found := Find(users, EmailIs(profile.email));
      var user: User;
      if found.None? {
        user := AuthRoutes.NewGoogleUser(id, profile, randomPassword).(lastLogin := Some(now));
        SaveNewUser(user);
      } else {
        user := users[found.value].(lastLogin := Some(now));
        SaveUserAt(found.value, user);
      }
      var picture := if user.profilePicture != "" then user.profilePicture else profile.picture;
      reply := Ok(AuthRoutes.GoogleView(user.id, user.name, user.email, user.role, picture));
    }
  }
}
