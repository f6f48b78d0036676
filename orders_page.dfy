/** The customer's order history of frontend/src/pages/Orders.js: the
    status icon and colour, the ready banner, the loyalty line and the line
    amounts. */
module OrdersPage {
  import opened Common
  import opened OrderModel
  import opened OrderRoutes
  import AdminDashboard

  datatype Icon = Clock | Package | CheckCircle

  datatype StatusIcon = StatusIcon(icon: Icon, color: string)

  /** `getStatusIcon`. */
  function IconFor(status: string): (i: StatusIcon)
    ensures status == Pending || status == Confirmed ==> i == StatusIcon(Clock, "text-yellow-500")
    ensures status == Preparing ==> i == StatusIcon(Package, "text-orange-500")
    ensures status == Ready || status == Completed ==> i == StatusIcon(CheckCircle, "text-green-500")
    ensures status !in {Pending, Confirmed, Preparing, Ready, Completed} ==> i == StatusIcon(Clock, "text-gray-500")
  {
    if status == "pending" || status == "confirmed" then StatusIcon(Clock, "text-yellow-500")
    else if status == "preparing" then StatusIcon(Package, "text-orange-500")
    else if status == "ready" || status == "completed" then StatusIcon(CheckCircle, "text-green-500")
    else StatusIcon(Clock, "text-gray-500")
  }

  /** A cancelled order gets the default icon. */
  lemma CancelledUsesDefaultIcon()
    ensures IconFor(Cancelled) == IconFor("no such status")
  {
  }

  const DefaultColor := "bg-gray-100 text-gray-800"

  /** This page's own colour table. */
  const StatusColors: map<string, string> := map[
    "pending" := "bg-yellow-100 text-yellow-800",
    "confirmed" := "bg-blue-100 text-blue-800",
    "preparing" := "bg-orange-100 text-orange-800",
    "ready" := "bg-green-100 text-green-800",
    "completed" := "bg-gray-100 text-gray-800",
    "cancelled" := "bg-red-100 text-red-800"]

  /** `getStatusColor`: the table entry, or the gray default. */
  function StatusColor(status: string): (color: string)
    ensures status in StatusColors ==> color == StatusColors[status]
    ensures status !in StatusColors ==> color == DefaultColor
  {
    if status in StatusColors then StatusColors[status] else DefaultColor
  }

  /** The two pages colour every status alike. */
  lemma SameColorsAsDashboard(status: string)
    ensures StatusColor(status) == AdminDashboard.StatusColor(status)
  {
  }

  /** The ready banner, shown only beside the green check mark and the
      green status colour. */
  predicate ShowsReadyBanner(o: Order): (b: bool)
    ensures b ==> IconFor(o.status) == StatusIcon(CheckCircle, "text-green-500")
    ensures b ==> StatusColor(o.status) == "bg-green-100 text-green-800"
  {
    o.status == Ready
  }

  /** The loyalty line: for an order whose points were earned on its total,
      shown exactly when the total is at least ten. */
  predicate ShowsLoyaltyLine(o: Order): (b: bool)
    ensures o.loyaltyPointsEarned == PointsEarned(o.totalAmount) ==> (b <==> o.totalAmount >= 10.0)
  {
    o.loyaltyPointsEarned > 0
  }

  /** The amount shown for one line. */
  function LineAmount(l: OrderLine): (amount: real)
    ensures l.quantity == 0 ==> amount == 0.0
    ensures l.quantity == 1 ==> amount == l.price
  {
    l.price * l.quantity as real
  }

  /** Each extra unit adds its price once. */
  lemma LineAmountPerUnit(l: OrderLine)
    ensures LineAmount(l.(quantity := l.quantity + 1)) == LineAmount(l) + l.price
  {
  }

  /** A freshly placed order shows no ready banner, and shows the loyalty
      line exactly when its total is at least ten. */
  lemma NewOrderDisplay(id: Id, requester: Id, req: OrderRequest, draw: real)
    requires 0.0 <= draw < 1.0
    ensures !ShowsReadyBanner(NewOrder(id, requester, req, draw))
    ensures ShowsLoyaltyLine(NewOrder(id, requester, req, draw)) <==> req.totalAmount >= 10.0
  {
    var n := PointsEarned(req.totalAmount);
    if n > 0 {
      assert n as real >= 1.0;
    }
  }
}
