/** The orders tab of frontend/src/pages/AdminDashboard.js: the pickup-code
    lookup, the local copy of the verified order after a status change, the
    status colours and the statuses the admin is offered. The server side of
    each request is the route function of the order handlers. */
module AdminDashboard {
  import opened Common
  import opened Text
  import opened OrderModel
  import opened OrderRoutes

  const DefaultColor := "bg-gray-100 text-gray-800"

  /** The colour classes of the status badges. */
  const StatusColors: map<string, string> := map[
    Pending := "bg-yellow-100 text-yellow-800",
    Confirmed := "bg-blue-100 text-blue-800",
    Preparing := "bg-orange-100 text-orange-800",
    Ready := "bg-green-100 text-green-800",
    Completed := "bg-gray-100 text-gray-800",
    Cancelled := "bg-red-100 text-red-800"]

  /** `getStatusColor`: the table entry, or the gray default. */
  function StatusColor(status: string): (color: string)
    ensures status in StatusColors ==> color == StatusColors[status]
    ensures status !in StatusColors ==> color == DefaultColor
  {
    if status in StatusColors then StatusColors[status] else DefaultColor
  }

  /** Every enum status has an entry, and only those do. */
  lemma ColorTableCoversStatuses()
    ensures forall s :: s in StatusColors <==> IsOrderStatus(s)
  {
  }

  /** The buttons under a verified order. */
  const QuickStatuses: seq<string> := [Confirmed, Preparing, Ready, Completed]

  /** The options of the per-order dropdown. */
  const DropdownStatuses: seq<string> := [Pending, Confirmed, Preparing, Ready, Completed, Cancelled]

  /** The dropdown offers the six statuses in schema order; the buttons
      offer four of them, neither pending nor cancelled. */
  lemma OfferedStatuses()
    ensures DropdownStatuses == OrderStatuses
    ensures forall s :: s in QuickStatuses ==> s in DropdownStatuses
    ensures Pending !in QuickStatuses && Cancelled !in QuickStatuses
  {
  }

  datatype Dashboard = Dashboard(pickupCode: string, verifiedOrder: Option<Order>)

  /** The code `verifyPickupCode` sends, if any: none for a blank input,
      else the input trimmed. */
  function LookupRequest(input: string): (sent: Option<string>)
    ensures sent.None? <==> Trim(input) == ""
    ensures sent.Some? ==> sent.value == Trim(input) && NoSurroundingWhitespace(sent.value)
  {
    if Trim(input) == "" then None else Some(Trim(input))
  }

  /** `verifyPickupCode` against the stored orders: a found order is
      shown, a failed lookup clears the shown one, a blank input does
      nothing. */
  function VerifyPickupCode(d: Dashboard, os: seq<Order>): (d': Dashboard)
    ensures LookupRequest(d.pickupCode).None? ==> d' == d
    ensures d'.pickupCode == d.pickupCode
    ensures LookupRequest(d.pickupCode).Some? ==>
              match FindByPickupCode(os, Trim(d.pickupCode))
              case Ok(o) => d'.verifiedOrder == Some(o)
              case _ => d'.verifiedOrder.None?
  {
    match LookupRequest(d.pickupCode)
    case None => d
    case Some(code) =>
      match FindByPickupCode(os, code)
      case Ok(o) => d.(verifiedOrder := Some(o))
      case _ => d.(verifiedOrder := None)
  }

  /** A code typed with surrounding spaces still finds its order. */
  lemma PaddedCodeFindsOrder(d: Dashboard, os: seq<Order>, bound: Id, k: nat)
    requires ValidOrders(os, bound) && k < |os|
    requires Trim(d.pickupCode) == os[k].pickupCode
    ensures VerifyPickupCode(d, os).verifiedOrder == Some(os[k])
  {
    PickupLookupFindsTheOrder(os, bound, k);
  }

  /** A code no order carries clears the shown order. */
  lemma UnknownCodeClearsOrder(d: Dashboard, os: seq<Order>)
    requires Trim(d.pickupCode) != ""
    requires forall k :: 0 <= k < |os| ==> os[k].pickupCode != Trim(d.pickupCode)
    ensures VerifyPickupCode(d, os).verifiedOrder.None?
  {
  }

  /** `updateOrderStatus` after the request settled: on success the shown
      order takes the new status if it is the updated one. */
  function AfterStatusUpdate(d: Dashboard, orderId: Id, status: string, accepted: bool): (d': Dashboard)
    ensures accepted && d.verifiedOrder.Some? && d.verifiedOrder.value.id == orderId ==>
              d' == d.(verifiedOrder := Some(d.verifiedOrder.value.(status := status)))
    ensures !(accepted && d.verifiedOrder.Some? && d.verifiedOrder.value.id == orderId) ==> d' == d
  {
    match d.verifiedOrder
    case Some(o) =>
      if accepted && o.id == orderId then d.(verifiedOrder := Some(o.(status := status))) else d
    case None => d
  }

  /** The shown order mirrors the server: after a status change of the
      shown order its copy equals the stored one. */
  lemma MirrorMatchesServer(d: Dashboard, os: seq<Order>, bound: Id, k: nat, status: string)
    requires ValidOrders(os, bound) && k < |os|
    requires d.verifiedOrder == Some(os[k])
    ensures UpdateStatus(os, os[k].id, status).reply.Ok?
    ensures AfterStatusUpdate(d, os[k].id, status, true).verifiedOrder ==
              Some(UpdateStatus(os, os[k].id, status).state[k])
  {
    UpdateStatusChangesOnlyThat(os, bound, os[k].id, status);
  }
}
