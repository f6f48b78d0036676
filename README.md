# Flyaro waffle shop: a verified model of the ordering rules

This project models the business rules of the Flyaro waffle shop in Dafny:
the Express/Mongoose back office and the React pages that compute with its
data. The back office covers coupons, orders with pickup codes and loyalty
points, users and favourites, the admin profile and authentication. The
pages cover the checkout arithmetic, menu search, the price editor, the
menu and coupon admin forms, the auth reducer, route protection, the admin
profile form, and the status tables of the dashboard and the orders page.

## Layout

- **Shared modules.**
  - `common.dfy`: ids, timestamps, `Option`, the HTTP-level `Reply`, and `Outcome(reply, state)`.
  - `text.dfy`: JavaScript `trim`, ASCII `toUpperCase`/`toLowerCase`, `includes`, `split` and `join`.
  - `seqs.dfy`: first-match `Find`, `Filter`, `Reverse`, the subsequence relation and the ordering predicates.
- **Schemas.** Each holds a record type and the invariant its schema keeps over the stored collection.
  - `coupon.dfy` covers `backend/models/Coupon.js`: upper-case code, unique code, percentage in 1..100, active by default.
  - `order.dfy` covers `backend/models/Order.js`: enums, defaults, the pre-validate pickup-code hook, four-digit unique pickup codes.
  - `user.dfy` holds the fields the routes touch. `backend/models/User.js` is not part of this model.
- **Route handlers.** `coupons.dfy`, `orders.dfy`, `users.dfy`, `admin.dfy` and `auth.dfy` model the files of `backend/routes/`.
  - Each handler is a function from the old collection to an `Outcome`: the reply plus the new collection.
  - Lemmas beside it prove the handler keeps the invariant and state what it changes.
- **The store.** `backoffice.dfy` holds the class `BackOffice.Store`.
  - Its fields are the three collections plus the next document id.
  - It has one method per route. Each method takes the handler's steps in place (look up, check, assign, save).
  - Each method is proved to produce exactly the handler function's outcome and to keep `Valid()`.
- **Frontend pages.**
  - `cart.dfy` covers `Cart.js`, `menu.dfy` covers `Menu.js` and `price_editor.dfy` covers `PriceEditor.js`.
  - `menu_management.dfy`, `coupon_management.dfy` and `admin_profile.dfy` cover the admin components.
  - `auth_context.dfy` covers `AuthContext.js`, `admin_dashboard.dfy` covers `AdminDashboard.js`, `orders_page.dfy` covers `Orders.js` and `app.dfy` covers `App.js`.
  - `menu_item.dfy` holds the menu item record of `backend/models/MenuItem.js`.
  - React component state is replaced wholesale by setters, so each handler is a function from the old component state to the new one.
  - The auth provider also writes browser storage and the request header in place, so it is a class, `AuthContext.AuthProvider`.

Stored collections are sequences in insertion order. Ids are handed out in
increasing order, so sorting by `createdAt` descending is modelled as
reversing the sequence, and the model proves that this is ordered by id.
The user's `createdAt` is not modelled. A missing string field of a request
body is the empty string, which JavaScript treats, like `undefined`, as
false.

Two behaviours follow from the code rather than from what its schema
suggests:

- backend/models/Order.js:12-16 declares a status enum, but PUT `/:id/status` (backend/routes/orders.js:75-79) uses `findByIdAndUpdate`.
  - That call runs no validators, so any string is stored over any status, with no order of transitions.
  - `OrderRoutes.UpdateStatusStoresAnyString` shows a status outside the enum being stored.
- backend/models/Order.js:11 declares `pickupCode` unique, so saving an order whose drawn code is already in use fails.
  - `OrderRoutes.Place` answers with an error and leaves both collections unchanged.

## Model

| member | source | states |
|---|---|---|
| CouponModel.NewCoupon | backend/models/Coupon.js:16-19 | a new coupon is active and carries exactly the given id, code, percentage, expiry and creator |
| CouponModel.ValidCouponsFilter | backend/routes/coupons.js:45 | removing any coupons from a valid collection keeps it valid (well-formed, unique codes, ascending ids) |
| CouponRoutes.Create | backend/routes/coupons.js:10-29 | an upper-cased code already stored is a 400 and nothing changes; success iff the code is new, non-empty and the percentage is in 1..100; on success exactly one coupon is appended, with the upper-cased code, the percentage, the expiry, the requester as creator, and active |
| CouponRoutes.CreateKeepsValid | backend/routes/coupons.js:13-25 | every create keeps the collection valid (upper-case unique codes, percentages in range, ascending ids) |
| CouponRoutes.List | backend/routes/coupons.js:35 | the listing has the same length and holds the coupons in reverse storage order |
| CouponRoutes.ListNewestFirst | backend/routes/coupons.js:35 | the listing holds exactly the stored coupons, newest (highest id) first |
| CouponRoutes.Delete | backend/routes/coupons.js:45-47 | NotFound iff no coupon has the id, and then nothing changes; otherwise the reply is the deleted message and exactly one coupon with that id is cut out |
| CouponRoutes.DeleteRemovesExactly | backend/routes/coupons.js:45-47 | in a valid collection the result is the collection without the coupon with that id, in order, and stays valid |
| CouponRoutes.Toggle | backend/routes/coupons.js:56-62 | NotFound iff no coupon has the id, and then nothing changes; otherwise that coupon's `isActive` is flipped and the reply is the flipped coupon |
| CouponRoutes.ToggleFlipsOnlyThat | backend/routes/coupons.js:56-62 | in a valid collection only the coupon with that id changes, and only in `isActive`; the collection stays valid |
| CouponRoutes.ToggleTwice | backend/routes/coupons.js:59 | toggling the same id twice restores the collection |
| CouponRoutes.Verify | backend/routes/coupons.js:73-87 | success iff some coupon has the upper-cased code, is active and expires strictly after now; the grant is that coupon's stored percentage and code; otherwise the invalid-coupon 404 |
| CouponRoutes.VerifyCaseInsensitive | backend/routes/coupons.js:74 | verifying a code and its upper-case form give the same answer |
| CouponRoutes.VerifyReportsTheCoupon | backend/routes/coupons.js:83-87 | in a valid collection any usable coupon with the code is the one reported |
| OrderModel.Draft | backend/models/Order.js:3-24 | a new order is pending and payment-pending, has the estimated time 20, no coupon, a zero discount and no pickup code yet, and carries the given fields |
| OrderModel.DecimalStringRoundTrip | backend/models/Order.js:28 | `toString` of a number gives a non-empty digit string, with no leading zero from 10 on, that reads back as the number |
| OrderModel.DecimalStringLength | backend/models/Order.js:28 | numbers in 1000..9999 have exactly four digits, with the lengths of the other ranges |
| OrderModel.DecimalValueRoundTrip | backend/models/Order.js:28 | a digit string with no leading zero is the decimal form of its value |
| OrderModel.PickupNumber | backend/models/Order.js:28 | `floor(1000 + r * 9000)` lies in 1000..9999 for every draw in [0, 1) |
| OrderModel.PickupCodeFor | backend/models/Order.js:28 | every drawn code is four digits with no leading zero, denoting a value in 1000..9999 |
| OrderModel.EveryCodeCanBeDrawn | backend/models/Order.js:28 | every four-digit code can be drawn, so nothing steers the draw away from codes in use |
| OrderModel.PickupCodeInjective | backend/models/Order.js:28 | two draws give the same code iff they give the same number |
| OrderModel.PreValidate | backend/models/Order.js:26-31 | an existing pickup code is never overwritten; a missing one becomes a valid code; no other field changes |
| OrderModel.ReplaceOrderKeepsValid | backend/routes/orders.js:75-79 | replacing an order by one with the same id and pickup code keeps the collection valid |
| OrderModel.AppendOrderKeepsValid | backend/models/Order.js:11 | appending an order with the next id and an unused four-digit code keeps the collection valid |
| OrderModel.FoundOrderIsUnique | backend/routes/orders.js:75 | in a valid collection the lookup by id finds exactly that order |
| OrderRoutes.PointsUsed | backend/routes/orders.js:17 | `loyaltyPointsUsed \|\| 0`: the given number, or 0 when absent |
| OrderRoutes.PointsEarned | backend/routes/orders.js:18 | the largest integer not above a tenth of the total |
| OrderRoutes.NewOrder | backend/routes/orders.js:12-19 | the order carries the requester, items, total and instructions; points used default to 0; points earned are floor(total / 10); it is pending with a four-digit code; no coupon and a zero discount are stored |
| OrderRoutes.Settle | backend/routes/orders.js:26 | the balance moves by exactly earned minus used, and nothing else about the user changes |
| OrderRoutes.Place | backend/routes/orders.js:8-33 | a drawn code already in use is an error that changes nothing; otherwise the order is appended; success iff additionally the requester exists, and then the reply is the order and the requester is settled; a missing requester fails after the order was saved |
| OrderRoutes.PlaceKeepsValid | backend/routes/orders.js:21-27 | placing an order keeps both the orders and the users valid |
| OrderRoutes.PlaceSettlesRequesterOnly | backend/routes/orders.js:25-27 | after a placed order the requester's balance is old minus used plus earned, and every other user is unchanged |
| OrderRoutes.SettleOneUser | backend/routes/orders.js:25-27 | settling the user at one index touches no user with another id |
| OrderRoutes.BalanceCanGoNegative | backend/routes/orders.js:26 | the balance has no floor: 0 points, 5 redeemed on a total of 30, ends at -2 |
| OrderRoutes.PlaceIgnoresCouponFields | backend/routes/orders.js:10-19 | the request's `couponApplied` and `discountAmount` have no effect on the outcome |
| OrderRoutes.MyOrders | backend/routes/orders.js:37-39 | the listing is no longer than the collection |
| OrderRoutes.MyOrdersExactly | backend/routes/orders.js:37-39 | my-orders holds exactly the requester's orders, newest first |
| OrderRoutes.AllOrders | backend/routes/orders.js:48-51 | the admin listing holds every order in reverse storage order |
| OrderRoutes.AllOrdersNewestFirst | backend/routes/orders.js:48-51 | the admin listing holds exactly the stored orders, newest first |
| OrderRoutes.FindByPickupCode | backend/routes/orders.js:61-65 | found iff some order's code equals the input exactly, and the reply is a stored order with that code; otherwise the invalid-code 404 |
| OrderRoutes.PickupLookupFindsTheOrder | backend/routes/orders.js:61-66 | pickup codes being unique, the lookup of a stored code returns that very order |
| OrderRoutes.UpdateStatus | backend/routes/orders.js:75-81 | NotFound iff no order has the id, and then nothing changes; otherwise that order's status is overwritten and the reply is the updated order |
| OrderRoutes.UpdateStatusChangesOnlyThat | backend/routes/orders.js:75-81 | in a valid collection only the status of the order with that id changes, and the collection stays valid |
| OrderRoutes.UpdateStatusIdempotent | backend/routes/orders.js:75-79 | applying the same status update twice equals applying it once |
| OrderRoutes.UpdateStatusStoresAnyString | backend/routes/orders.js:75-79 | the status "lost", outside the six enum values, is accepted and written into the order all the same |
| UserModel.NewUser | backend/routes/auth.js:19 | a new user is a customer with no points, favourites, login or picture, and carries the given fields |
| UserModel.FoundUserIsUnique | backend/routes/users.js:9 | in a valid collection the lookup by id finds exactly that user |
| UserModel.ReplaceKeepsValid | backend/routes/admin.js:21-27 | replacing a user by one with the same id and an email no other user holds keeps the users valid |
| UserModel.ReplaceSameEmailKeepsValid | backend/routes/users.js:18 | saving a user with unchanged id and email keeps the users valid |
| UserModel.AppendKeepsValid | backend/routes/auth.js:16-20 | appending a user with the next id and an email nobody holds keeps the users valid |
| UserRoutes.ToggleFavorite | backend/routes/users.js:12-16 | a listed item is removed, every copy of it, while every other id keeps all its copies in their order (a subsequence with the same count of each other id, shorter by the item's count); an unlisted one is appended at the end |
| UserRoutes.FilterCountsLength | backend/routes/users.js:13 | filtering out an item shortens the list by exactly the item's number of copies |
| UserRoutes.ToggleFavoriteTwice | backend/routes/users.js:12-15 | toggling an unlisted item twice restores the list |
| UserRoutes.ToggleListedTwiceMovesIt | backend/routes/users.js:12-15 | toggling a listed item twice moves it to the end, so the round trip needs the item to be unlisted |
| UserRoutes.Favorite | backend/routes/users.js:7-19 | success iff the requester exists; the reply is the toggled list, and only that user's favourites are replaced by it |
| UserRoutes.FavoriteKeepsValid | backend/routes/users.js:18 | the toggle keeps the users valid |
| UserRoutes.LoyaltyPoints | backend/routes/users.js:27-28 | success iff the requester exists, and then the reply is their stored balance |
| UserRoutes.LoyaltyPointsOfUser | backend/routes/users.js:27-28 | in a valid collection the lookup reports the balance of that very user |
| AdminRoutes.ApplyProfileEdits | backend/routes/admin.js:16-25 | each of name, email and password is replaced only by a non-empty value; no other field, the role included, changes |
| AdminRoutes.UpdateProfile | backend/routes/admin.js:7-28 | a missing admin fails; success iff the admin exists, the password guard passes (no current password or a matching one) and the email is absent, unchanged or unused by other users; success saves exactly the edited admin; any failure saves nothing |
| AdminRoutes.WrongPasswordRefused | backend/routes/admin.js:12-14 | a supplied current password that does not match is a 400 and nothing is saved |
| AdminRoutes.EmailConflictRefused | backend/routes/admin.js:16-20 | moving to an email another user holds is a 400 and nothing is saved |
| AdminRoutes.NewPasswordWithoutCurrent | backend/routes/admin.js:12-25 | with no current password a new password is applied all the same, and the role is kept |
| AdminRoutes.UpdateProfileKeepsValid | backend/routes/admin.js:16-27 | every profile update keeps the users valid: emails stay distinct |
| AuthRoutes.Register | backend/routes/auth.js:16-23 | an email already held is a 400 and nothing changes; success iff the email is new, and then exactly one customer with the given fields is appended and described in the reply |
| AuthRoutes.RegisterKeepsValid | backend/routes/auth.js:16-20 | registration keeps the users valid |
| AuthRoutes.Login | backend/routes/auth.js:33-42 | success iff the first user with the email has a matching password; an unknown email and a wrong password get the same 400 and change nothing; success changes only that user's `lastLogin` |
| AuthRoutes.LoginOfUser | backend/routes/auth.js:33-36 | in a valid collection login with a stored email succeeds exactly when the password matches that user's |
| AuthRoutes.LoginKeepsValid | backend/routes/auth.js:38-39 | login keeps the users valid |
| AuthRoutes.NewGoogleUser | backend/routes/auth.js:75-81 | the created account is a customer flagged as a Google user, with the Google name, email and picture and the random password |
| AuthRoutes.GoogleLogin | backend/routes/auth.js:58-101 | a ticket that fails to verify is the authentication failure; otherwise success; an unknown email appends a new Google user with the login time; a known one changes only that user's `lastLogin`, and the reply carries that user's id, name, email and role, with the stored picture falling back to Google's |
| AuthRoutes.GoogleLoginKeepsValid | backend/routes/auth.js:71-87 | Google login keeps the users valid, and the collection grows iff the ticket verifies and nobody holds the email |
| AuthRoutes.GoogleLoginCreatesOnce | backend/routes/auth.js:71-83 | logging in twice with the same Google account creates at most one account |
| BackOffice.Store.CreateCoupon | backend/routes/coupons.js:8-30 | the in-place handler gives exactly `CouponRoutes.Create`'s reply and collection, keeps the store valid and takes one id |
| BackOffice.Store.AdminCoupons | backend/routes/coupons.js:33-40 | the listing is `CouponRoutes.List`, newest first, with exactly the stored coupons |
| BackOffice.Store.DeleteCoupon | backend/routes/coupons.js:43-51 | the handler gives `CouponRoutes.Delete`'s outcome, which is the collection without that id, and keeps the store valid |
| BackOffice.Store.ToggleCoupon | backend/routes/coupons.js:54-66 | the handler gives `CouponRoutes.Toggle`'s outcome and keeps the store valid |
| BackOffice.Store.VerifyCoupon | backend/routes/coupons.js:69-91 | the reply is `CouponRoutes.Verify`'s, with the upper-cased code, and nothing changes |
| BackOffice.Store.SaveNewOrder | backend/routes/orders.js:21 | saving an order with the id just taken and an unused code appends it and keeps the store valid |
| BackOffice.Store.PlaceOrder | backend/routes/orders.js:8-33 | the handler gives exactly `OrderRoutes.Place`'s reply and collections, keeps the store valid and takes one id |
| BackOffice.Store.MyOrders | backend/routes/orders.js:35-44 | the listing is `OrderRoutes.MyOrders`: exactly the requester's orders, newest first |
| BackOffice.Store.AllOrders | backend/routes/orders.js:46-56 | the listing is every order, newest first |
| BackOffice.Store.VerifyPickupCode | backend/routes/orders.js:58-70 | the reply is `OrderRoutes.FindByPickupCode`'s: a stored order with exactly that code, or the 404 |
| BackOffice.Store.UpdateOrderStatus | backend/routes/orders.js:72-86 | the handler gives `OrderRoutes.UpdateStatus`'s outcome and keeps the store valid |
| BackOffice.Store.SaveUserAt | backend/routes/users.js:18 | saving a user with unchanged id and email replaces that user and keeps the store valid |
| BackOffice.Store.SaveNewUser | backend/routes/auth.js:20 | saving a new user with the id just taken and a fresh email appends it and keeps the store valid |
| BackOffice.Store.ToggleFavorite | backend/routes/users.js:7-23 | the handler gives `UserRoutes.Favorite`'s outcome and keeps the store valid |
| BackOffice.Store.LoyaltyPoints | backend/routes/users.js:25-32 | the reply is `UserRoutes.LoyaltyPoints`'s and nothing changes |
| BackOffice.Store.UpdateAdminProfile | backend/routes/admin.js:7-32 | the handler's guards and field assignments give `AdminRoutes.UpdateProfile`'s outcome and keep the store valid |
| BackOffice.Store.Register | backend/routes/auth.js:12-27 | the handler gives `AuthRoutes.Register`'s outcome, keeps the store valid and takes one id |
| BackOffice.Store.Login | backend/routes/auth.js:29-46 | the handler gives `AuthRoutes.Login`'s outcome and keeps the store valid |
| BackOffice.Store.GoogleLogin | backend/routes/auth.js:58-106 | the find-or-create handler gives `AuthRoutes.GoogleLogin`'s outcome, keeps the store valid and takes one id |
| MenuCatalog.NewMenuItem | backend/models/MenuItem.js:3-22 | a new menu item has the schema defaults (rating 4.5, no reviews, available, no ingredients, 15 minutes, not popular, no discount) and the given fields |
| MenuPage.FilterItems | frontend/src/pages/Menu.js:35-50 | the result keeps the items' order (a subsequence); an empty term with category All filters nothing |
| MenuPage.FilterItemsExactly | frontend/src/pages/Menu.js:38-47 | an item is in the result iff it is in the menu and matches both the term (name or description, ignoring case; an empty term matches all) and the category (All matches all) |
| MenuPage.EmptyTermOnlyFiltersCategory | frontend/src/pages/Menu.js:38-47 | with an empty term no text filter applies: the result is the menu, or its items of the chosen category |
| MenuPage.FilterItemsIdempotent | frontend/src/pages/Menu.js:35-50 | filtering the result again with the same inputs leaves it unchanged |
| PriceEditor.SetPrice | frontend/src/components/admin/PriceEditor.js:26-30 | the length is kept; every item with the id gets the new price and nothing else changes; the other items are unchanged |
| PriceEditor.SetPriceNoMatch | frontend/src/components/admin/PriceEditor.js:27-29 | with no matching id the list comes back unchanged |
| PriceEditor.SetPriceKeepsOtherFields | frontend/src/components/admin/PriceEditor.js:28 | a matched item keeps every field but the price |
| PriceEditor.SetPriceLastWins | frontend/src/components/admin/PriceEditor.js:26-30 | two edits of the same item leave the later price |
| PriceEditor.SaveRequests | frontend/src/components/admin/PriceEditor.js:36-38 | save sends one update per item, in order, with its id and current price |
| PriceEditor.SaveCarriesEdit | frontend/src/components/admin/PriceEditor.js:26-38 | after an edit, save sends the new price for the edited item and the old price for the others |
| MenuManagement.ParseIngredients | frontend/src/components/admin/MenuManagement.js:62 | parsing yields one more entry than there are commas, each without surrounding whitespace and without a comma |
| MenuManagement.FormatIngredients | frontend/src/components/admin/MenuManagement.js:105 | a missing or empty ingredient list formats to the empty string |
| MenuManagement.SplitJoined | frontend/src/components/admin/MenuManagement.js:105 | splitting the ", "-joined form of comma-free entries at commas gives the first entry and then each later entry behind one space |
| MenuManagement.ParseFormatRoundTrip | frontend/src/components/admin/MenuManagement.js:62 | for a non-empty list of comma-free entries without surrounding whitespace, parsing the formatted form gives the list back |
| MenuManagement.ParsedEntry | frontend/src/components/admin/MenuManagement.js:62 | each parsed entry is the trimmed piece of the split at the same position |
| MenuManagement.EmptyListHasNoRoundTrip | frontend/src/components/admin/MenuManagement.js:105 | a missing and an empty list both format to "", and "" parses to one empty entry, not to an empty list |
| MenuManagement.ItemDataOf | frontend/src/components/admin/MenuManagement.js:59-69 | the submitted item has the first preview as image, else the placeholder; a secondary image iff a second preview exists; the parsed ingredients and the form's fields |
| MenuManagement.NoPreviewUsesPlaceholder | frontend/src/components/admin/MenuManagement.js:63-69 | with no previews the image is the placeholder and there is no secondary image |
| MenuManagement.ImageLoaded | frontend/src/components/admin/MenuManagement.js:42-50 | a loaded file sets the preview and file at its index only |
| MenuManagement.Edit | frontend/src/components/admin/MenuManagement.js:98-110 | editing loads the item's fields into the form, its ingredients formatted, and opens the form on that item |
| MenuManagement.EditThenSubmitKeepsIngredients | frontend/src/components/admin/MenuManagement.js:98-110 | editing an item and submitting unchanged sends its ingredient list back, when the entries are non-empty in number, comma-free and trimmed |
| MenuManagement.ResetForm | frontend/src/components/admin/MenuManagement.js:112-127 | reset closes the form, drops the edited item, puts the image index back to 0, and restores the category Classic and 15 minutes |
| MenuManagement.ResetRestoresInitial | frontend/src/components/admin/MenuManagement.js:10-21 | reset gives exactly the component's initial state, whatever the state before |
| MenuManagement.NextImage | frontend/src/components/admin/MenuManagement.js:129-131 | the index becomes 1 and nothing else changes |
| MenuManagement.PrevImage | frontend/src/components/admin/MenuManagement.js:133-135 | the index becomes 0 and nothing else changes |
| MenuManagement.ImageMovesIdempotent | frontend/src/components/admin/MenuManagement.js:129-135 | each move is idempotent, and back after forth from index 0 restores the state |
| CouponManagement.IsExpired | frontend/src/components/admin/CouponManagement.js:74-76 | an expired coupon fails the verify route's strictly-after test; a coupon not expired passes it unless it expires exactly now |
| CouponManagement.StatusLabel | frontend/src/components/admin/CouponManagement.js:203-208 | the label is Active iff the coupon is active and its expiry is not before now (`isExpired` is strict), else Inactive |
| CouponManagement.LabelDisagreesAtExpiry | frontend/src/components/admin/CouponManagement.js:74-76 | an active coupon expiring exactly now is labelled Active while the verify route rejects its code |
| CouponManagement.LabelAgreesOffExpiry | frontend/src/components/admin/CouponManagement.js:74-76 | at any other time the label is Active iff the verify route accepts the coupon's code |
| CouponManagement.TypeCode | frontend/src/components/admin/CouponManagement.js:110 | the code field holds the upper-cased input, of the same length; the other fields are kept |
| CouponManagement.ResetForm | frontend/src/components/admin/CouponManagement.js:66-72 | reset gives an empty code, 10 percent and the given default expiry |
| CouponManagement.CreatedCodeIsShownCode | frontend/src/components/admin/CouponManagement.js:110 | a coupon created from the form is stored with exactly the code the form shows |
| AuthContext.Reduce | frontend/src/context/AuthContext.js:6-17 | LOGIN_SUCCESS sets user and token and authenticates, keeping loading; LOGOUT clears them, keeping loading; SET_LOADING changes only loading; any other action changes nothing |
| AuthContext.LogoutIdempotent | frontend/src/context/AuthContext.js:11 | logging out twice equals logging out once |
| AuthContext.LoginThenLogout | frontend/src/context/AuthContext.js:9-11 | a login followed by a logout leaves a signed-out state with the same loading flag |
| AuthContext.ReduceKeepsConsistent | frontend/src/context/AuthContext.js:6-17 | every action with a token keeps "authenticated iff a user is set, and then a token is set" |
| AuthContext.InitialState | frontend/src/context/AuthContext.js:20-25 | the initial state is consistent, loading, unauthenticated and holds the stored token |
| AuthContext.Bearer | frontend/src/context/AuthContext.js:54 | the header is "Bearer " followed by exactly the token |
| AuthContext.AuthProvider.constructor | frontend/src/context/AuthContext.js:20-25 | the provider starts from the initial state over the stored token, with no header set |
| AuthContext.AuthProvider.Boot | frontend/src/context/AuthContext.js:27-47 | with a stored token and a profile: logged in with the stored token and the Bearer header; with a stored token but no profile: the stored token and the header are removed while the reducer state, stale token included, only stops loading; with no token: only loading ends; loading always ends |
| AuthContext.AuthProvider.SignIn | frontend/src/context/AuthContext.js:49-58 | the token is stored, the header is "Bearer " plus the token, and the state is the reducer's LOGIN_SUCCESS |
| AuthContext.AuthProvider.SignOut | frontend/src/context/AuthContext.js:82-86 | the token and header are removed and the state is the reducer's LOGOUT |
| AppRoutes.Protect | frontend/src/App.js:16-24 | loading shows the spinner; unauthenticated redirects to /login; admin-only with a non-admin redirects to /; the page renders iff not loading, authenticated and (not admin-only or admin) |
| AppRoutes.RoleLiteralsAgree | frontend/src/App.js:21 | the page's own `'admin'` literal is the role string the server stores for admins |
| AppRoutes.RoutePath | frontend/src/App.js:35-43 | the location as the router matches it: no upper-case letter, the root or a path without a trailing slash, and otherwise a prefix of the lower-cased location |
| AppRoutes.NormalPathIsFixed | frontend/src/App.js:35-43 | a location already in normal form is matched as itself |
| AppRoutes.RoutePathIdempotent | frontend/src/App.js:35-43 | normalising a location twice is normalising it once |
| AppRoutes.TrailingSlashIgnored | frontend/src/App.js:35-43 | a trailing slash does not change the route a location matches |
| AppRoutes.CaseIgnored | frontend/src/App.js:35-43 | route matching is not case-sensitive: a location and its lower-case form match alike |
| AppRoutes.GuardPathsAreNormal | frontend/src/App.js:40-42 | every guarded route path is in normal form, so its own spelling reaches it |
| AppRoutes.PublicPathsAreNormal | frontend/src/App.js:36-39 | every public route path is in normal form |
| AppRoutes.View | frontend/src/App.js:26-43 | on the normal form of the location, /cart, /orders and /admin go through the guard, /admin admin-only; the public paths render; anything else matches no route; loading always shows the spinner |
| AppRoutes.CaseAndSlashIgnored | frontend/src/App.js:35-43 | a location differing from another only in case or a trailing slash shows the same page, so "/Cart/" is the guarded cart page |
| AppRoutes.SessionOpensCustomerRoutes | frontend/src/App.js:40-41 | any signed-in user sees /cart and /orders, however the location is cased or slashed |
| AppRoutes.LogoutClosesProtectedRoutes | frontend/src/App.js:40-42 | after a logout every guarded path redirects to /login |
| AppRoutes.SignInOpensByRole | frontend/src/App.js:40-42 | after a login every guarded page renders, except that an admin-only page sends a non-admin to / |
| AppRoutes.BootingShowsSpinner | frontend/src/App.js:29 | before the boot check finishes every path shows the spinner |
| AdminProfileForm.InitialForm | frontend/src/components/admin/AdminProfile.js:9-15 | the form starts with the user's name and email (empty without a user) and empty password fields |
| AdminProfileForm.Submit | frontend/src/components/admin/AdminProfile.js:19-42 | refused iff a new password is given and it differs from the confirmation or no current password is given; a mismatch is reported before a missing current password; a request carries name and email, and the password fields only with a new password |
| AdminProfileForm.NoNewPasswordWithoutCurrent | frontend/src/components/admin/AdminProfile.js:27-30 | a request that changes the password always carries a current password |
| AdminProfileForm.FormPasswordChangeNeedsMatch | frontend/src/components/admin/AdminProfile.js:39-44 | a password change from the form that the server accepts had the admin's correct current password, which the server alone would not demand |
| AdminProfileForm.AfterReply | frontend/src/components/admin/AdminProfile.js:47-52 | on success the three password fields are cleared and name and email are kept; otherwise the form is unchanged |
| AdminProfileForm.ClearedFormSendsNoPassword | frontend/src/components/admin/AdminProfile.js:34-52 | submitting again after a success sends only name and email |
| AdminDashboard.StatusColor | frontend/src/pages/AdminDashboard.js:60-70 | the table's colour for a listed status, the gray default for any other string |
| AdminDashboard.ColorTableCoversStatuses | frontend/src/pages/AdminDashboard.js:61-68 | the colour table lists exactly the six order statuses |
| AdminDashboard.OfferedStatuses | frontend/src/pages/AdminDashboard.js:191-269 | the dropdown offers all six statuses in schema order; the quick buttons are among them and offer neither pending nor cancelled |
| AdminDashboard.LookupRequest | frontend/src/pages/AdminDashboard.js:33-38 | a blank code sends nothing; otherwise the trimmed code is sent |
| AdminDashboard.VerifyPickupCode | frontend/src/pages/AdminDashboard.js:32-45 | a blank code changes nothing; otherwise the verified order becomes the server's answer for the trimmed code, or none |
| AdminDashboard.PaddedCodeFindsOrder | frontend/src/pages/AdminDashboard.js:36-39 | a code typed with surrounding whitespace still finds its order |
| AdminDashboard.UnknownCodeClearsOrder | frontend/src/pages/AdminDashboard.js:41-44 | a failed lookup clears the verified order |
| AdminDashboard.AfterStatusUpdate | frontend/src/pages/AdminDashboard.js:47-58 | an accepted update mirrors the status into the verified order only when the ids match, changing nothing else; otherwise nothing changes |
| AdminDashboard.MirrorMatchesServer | frontend/src/pages/AdminDashboard.js:52-54 | the mirrored order equals the order the server stores and answers |
| OrdersPage.IconFor | frontend/src/pages/Orders.js:25-37 | pending and confirmed give the yellow clock, preparing the package, ready and completed the check mark, anything else the gray clock |
| OrdersPage.CancelledUsesDefaultIcon | frontend/src/pages/Orders.js:35-36 | cancelled has no icon of its own: it shows the default |
| OrdersPage.StatusColor | frontend/src/pages/Orders.js:40-50 | the table's colour for a listed status, the gray default otherwise |
| OrdersPage.SameColorsAsDashboard | frontend/src/pages/Orders.js:40-50 | the orders page colours every status exactly as the admin dashboard does |
| OrdersPage.ShowsReadyBanner | frontend/src/pages/Orders.js:85-87 | the ready note of line 85 and the banner of line 124, shown for status ready, appear only with the green check-mark icon and the green status colour |
| OrdersPage.ShowsLoyaltyLine | frontend/src/pages/Orders.js:152 | for an order whose points were earned on its total, the loyalty line shows iff the total is at least 10 |
| OrdersPage.LineAmount | frontend/src/pages/Orders.js:111 | a line of quantity 0 shows 0 and of quantity 1 its unit price |
| OrdersPage.LineAmountPerUnit | frontend/src/pages/Orders.js:111 | one more unit adds exactly the unit price, so the amount is price times quantity |
| OrdersPage.NewOrderDisplay | frontend/src/pages/Orders.js:85-152 | a new order shows no ready banner, and shows the loyalty line iff its total is at least 10 |
| CartPage.Subtotal | frontend/src/pages/Cart.js:159 | an empty cart has a zero subtotal |
| CartPage.SubtotalNonNegative | frontend/src/pages/Cart.js:159 | lines with non-negative prices and quantities give a non-negative subtotal |
| CartPage.Discount | frontend/src/pages/Cart.js:47-50 | no coupon gives 0; a coupon gives the percentage of the subtotal |
| CartPage.DiscountBounds | frontend/src/pages/Cart.js:49 | with a percentage in 1..100 the discount lies in (0, subtotal] |
| CartPage.Cgst | frontend/src/pages/Cart.js:52-56 | the CGST line equals the SGST line and lies between zero and 9% of the subtotal when the discount does not exceed it; `TotalIsDiscountedPlusTax` relates it to the total |
| CartPage.Sgst | frontend/src/pages/Cart.js:58-62 | the SGST line lies between zero and 9% of the subtotal when the discount does not exceed it |
| CartPage.Total | frontend/src/pages/Cart.js:64-70 | the total is 1.18 times the discounted subtotal; `TotalNonNegative` and `CouponSaving` bound it and price the coupon |
| CartPage.TotalIsDiscountedPlusTax | frontend/src/pages/Cart.js:52-70 | the two 9% tax lines are equal, and the total is 1.18 times the discounted subtotal |
| CartPage.TotalNonNegative | frontend/src/pages/Cart.js:64-70 | with a non-negative subtotal and a coupon of at most 100% the total is not negative |
| CartPage.CouponSaving | frontend/src/pages/Cart.js:64-70 | a coupon lowers the total by 1.18 times its discount |
| CartPage.SetQuantity | frontend/src/pages/Cart.js:21 | the lines keep their number and order; lines of the item get the quantity, the others are unchanged |
| CartPage.ChangeQuantity | frontend/src/pages/Cart.js:17-23 | quantity 0 removes the item's lines; any other value sets it; nothing else in the cart changes |
| CartPage.ZeroRemovesItem | frontend/src/pages/Cart.js:18-19 | after a change to 0 no line of the item is left and every other line remains |
| CartPage.NonZeroKeepsLines | frontend/src/pages/Cart.js:20-21 | a non-zero change keeps every line's id and price, in order |
| CartPage.ApplyCoupon | frontend/src/pages/Cart.js:25-39 | a blank code changes nothing; otherwise the applied coupon becomes the verify route's grant for the code as typed, or none |
| CartPage.ApplyUsableCoupon | frontend/src/pages/Cart.js:30-31 | a usable coupon typed in any case is applied with its stored code and percentage |
| CartPage.LeadingSpaceRefused | frontend/src/pages/Cart.js:26-30 | a code with leading whitespace passes the blank check but is sent untrimmed, so it is refused and the applied coupon dropped |
| CartPage.VerifyRefusesLeadingSpace | frontend/src/pages/Cart.js:30 | no stored code without surrounding whitespace matches a code that starts with whitespace |
| CartPage.RemoveCoupon | frontend/src/pages/Cart.js:41-45 | the applied coupon and the code are cleared; lines and instructions are kept |
| CartPage.Lines | frontend/src/pages/Cart.js:78-82 | one request entry per cart line, in order, with its id, quantity and price |
| CartPage.Checkout | frontend/src/pages/Cart.js:72-87 | an empty cart sends nothing; otherwise the request has the lines, the page's total and discount, the instructions, the applied coupon's code and no redeemed points |
| CartPage.AfterCheckout | frontend/src/pages/Cart.js:92-94 | after the order the cart, the applied coupon and the code are cleared |
| CartPage.CheckoutOrder | frontend/src/pages/Cart.js:77-87 | the server's order for a checkout redeems no points, stores the page's total, earns a tenth of 1.18 times the discounted subtotal and records no coupon |
| CartPage.CheckoutExample | frontend/src/pages/Cart.js:47-70 | two waffles at 100 with 10% off give a discount of 20, tax lines of 16.2, a total of 212.4 and 21 points; without the coupon 236 and 23 |

## Left out

- JWT signing and the token check of the auth middleware are left out. The requester's id is a parameter of each handler. `backend/middleware/auth.js` is not part of this model.
- The bcrypt comparison of the user model is the function `Store.passwordMatches`. Hashing on save is not modelled: the stored password is the one given.
- Google ID-token verification is an input: the verified profile, or none when the token does not verify.
- `Math.random` is a parameter. The pickup-code draw is a real in [0, 1), and the random Google password is a string.
- `new Date()` is a timestamp parameter. Dates are abstract integers, so ISO parsing and the truncation of the default coupon expiry to a date string are not modelled.
- Floating point is not modelled. Amounts are exact reals, and `toFixed(2)`, `parseFloat`, `parseInt` and NaN inputs are left out.
- `toUpperCase` and `toLowerCase` map ASCII letters only. Other letters are kept as they are.
- `backend/models/User.js` is not part of this model. The user record holds the fields the routes read and write, with the defaults the routes rely on.
- Ids of an invalid format, which make Mongoose throw a cast error, are not modelled. Every id is well formed.
- Request bodies missing a field that the handler dereferences are not modelled.
  - For example, `code.toUpperCase()` on a missing code throws. A missing string is the empty string.
- `populate` is left out. It changes what a reply displays, not what is stored.
- GET `/profile` of `backend/routes/auth.js` is not modelled. It only reads. `AuthContext.AuthProvider.Boot` takes its result as the `profile` parameter.
- Concurrency is not modelled: interleaved requests, and a checkout racing on the balance or on a pickup code. Every request runs to completion before the next.
- `createdAt` is not stored. Ordering by it is ordering by id, which assumes a clock that never runs backwards.
- Error messages of exceptions are stand-in constants. Examples are the duplicate-key error, the validation error and the TypeError on a missing user.
- The `CartContext` store (`getTotalPrice`, `updateQuantity`, `removeItem`, `clearCart`) is not part of this model.
  - The subtotal is taken to be the sum of price times quantity per line.
  - Updating rewrites the quantity, removing drops the item's lines and clearing empties the cart.
- Toasts, spinners rendered as markup, `alert`, `window.confirm` and `setTimeout` are left out.
- `FileReader` reading and the `Promise.all` fan-out of the price editor are left out. A loaded image is the data URL given as input, and save is the list of requests it sends.
- The price shown in the edit form (`price.toString()`) is a string input of `MenuManagement.Edit`.
- AppRoutes.RoutePath: models the router's case-insensitive matching and its tolerance of a trailing slash. Letters are folded as ASCII only, and other normalisations (repeated slashes, percent-encoding, a query string or a hash) are not modelled.
- The JavaScript object lookup `colors[status]` also answers for inherited keys such as `constructor`. The status colour tables are maps and ignore those keys.
- The menu item's `nutritionInfo` is left out.
- `Home.js`, `Navbar.js`, `MenuCard.js`, `seedData.js`, `server.js`, `index.js` and the Tailwind configuration are not part of this model.
- A fractional `discountPercent` is not modelled. Percentages are integers.
- CartPage.Subtotal: its contract fixes only the empty cart. The sum it stands for is computed by `CartContext`, which is not part of this model.
- OrderRoutes.MyOrders: its own contract bounds only the length. Its meaning (exactly the requester's orders, newest first) is stated by `OrderRoutes.MyOrdersExactly`.
- AuthContext.AuthProvider.SignIn: models the shared tail of `login`, `googleLogin` and `register` (store the token, set the header, dispatch LOGIN_SUCCESS). The HTTP calls before it are the back-office routes.
