// The merchant dashboard (frontend/src/pages/Merchant/MerchantDashboard.tsx):
// the colour and label of each recent order's status, and the figures built
// from the dashboard reply.
module MerchantDashboard {
  import opened Wrappers
  import opened Text
  import OrderModel

  // ---------------------------------------------------------------------
  // Status colour and label
  // ---------------------------------------------------------------------

  const Red := "bg-red-100 text-red-700"
  const Yellow := "bg-yellow-100 text-yellow-700"
  const Blue := "bg-blue-100 text-blue-700"
  const Grey := "bg-gray-100 text-gray-700"

  /** The upper-cased spellings the dashboard recognises. */
  predicate Known(upper: string)
  {
    upper == "PENDING" || upper == "CONFIRMED" || upper == "READY_FOR_PICKUP"
    || upper == "READY" || upper == "CANCELED" || upper == "CANCELLED"
  }

  function StatusClass(status: string): (r: string)
    ensures !Known(Upper(status)) ==> r == Grey
  {
    var upper := Upper(status);
    if upper == "PENDING" then Red
    else if upper == "CONFIRMED" then Yellow
    else if upper == "READY_FOR_PICKUP" || upper == "READY" then Blue
    else if upper == "CANCELED" || upper == "CANCELLED" then Grey
    else Grey
  }

  function StatusText(status: string): (r: string)
    ensures !Known(Upper(status)) ==> r == status
  {
    var upper := Upper(status);
    if upper == "PENDING" then "Chờ xác nhận"
    else if upper == "CONFIRMED" then "Đã xác nhận"
    else if upper == "READY_FOR_PICKUP" || upper == "READY" then "Đã sẵn sàng"
    else if upper == "CANCELED" || upper == "CANCELLED" then "Đã hủy"
    else status
  }

  /** Two spellings that differ only in case get the same colour, and the
    * same label when the dashboard recognises them. */
  lemma CaseInsensitive(s: string, t: string)
    requires Upper(s) == Upper(t)
    ensures StatusClass(s) == StatusClass(t)
    ensures Known(Upper(s)) ==> StatusText(s) == StatusText(t)
  {
  }

  /** READY is READY_FOR_PICKUP and CANCELLED is CANCELED, in colour and
    * label; cancelled orders share the grey of unknown ones. */
  lemma Aliases(s: string, t: string)
    requires (Upper(s) == "READY" && Upper(t) == "READY_FOR_PICKUP")
          || (Upper(s) == "CANCELLED" && Upper(t) == "CANCELED")
    ensures StatusClass(s) == StatusClass(t) && StatusText(s) == StatusText(t)
    ensures Upper(s) == "CANCELLED" ==> StatusClass(s) == Grey && StatusText(s) == "Đã hủy"
  {
  }

  /** The backend's codes are already upper-case. */
  lemma CodeIsUpper(st: OrderModel.Status)
    requires !st.Other?
    ensures Upper(OrderModel.StatusCode(st)) == OrderModel.StatusCode(st)
  {
    var s := OrderModel.StatusCode(st);
    match st {
      case Pending => UpperOfCaps(s);
      case Confirmed => UpperOfCaps(s);
      case ReadyForPickup => UpperOfCaps(s);
      case PickedUp => UpperOfCaps(s);
      case Delivering => UpperOfCaps(s);
      case Delivered => UpperOfCaps(s);
      case Canceled => UpperOfCaps(s);
    }
  }

  /** Of the backend's statuses, the dashboard labels the four a merchant
    * acts on and shows the three delivery ones as stored, in grey. */
  lemma BackendStatuses(st: OrderModel.Status)
    requires !st.Other?
    ensures Known(OrderModel.StatusCode(st)) <==> st in {OrderModel.Pending, OrderModel.Confirmed, OrderModel.ReadyForPickup, OrderModel.Canceled}
    ensures !Known(OrderModel.StatusCode(st)) ==>
      StatusClass(OrderModel.StatusCode(st)) == Grey && StatusText(OrderModel.StatusCode(st)) == OrderModel.StatusCode(st)
  {
    CodeIsUpper(st);
  }

  // ---------------------------------------------------------------------
  // Figures
  // ---------------------------------------------------------------------

  /** One recent order as the backend sends it; absent fields are `None`. */
  datatype RecentOrder = RecentOrder(
    orderId: int, customerUsername: string, total: Option<string>,
    paymentStatus: string, status: string, time: string)

  /** The dashboard reply. */
  datatype Reply = Reply(
    ordersToday: Option<int>, revenueToday: Option<string>, soldOut: Option<int>,
    recentOrders: Option<seq<RecentOrder>>)

  datatype OrderSummary = OrderSummary(
    orderId: int, customerName: string, total: real,
    paymentStatus: string, status: string, time: string)

  datatype Stats = Stats(ordersToday: int, revenueToday: real, soldOutItems: int, storeRating: real)

  /** `x || 0` on a number. */
  function OrZero(n: Option<int>): (r: int)
    ensures n.Some? ==> r == n.value
    ensures n.None? ==> r == 0
  {
    if n.Some? then n.value else 0
  }

  /** `x || '0'` on a string. */
  function OrZeroText(s: Option<string>): (r: string)
    ensures r == "0" || (s.Some? && r == s.value && r != "")
    ensures s.Some? && s.value != "" ==> r == s.value
  {
    if Truthy(s) then s.value else "0"
  }

  function Summary(o: RecentOrder, parse: string -> real): OrderSummary
  {
    OrderSummary(o.orderId, o.customerUsername, parse(OrZeroText(o.total)), o.paymentStatus, o.status, o.time)
  }

  function Summaries(orders: seq<RecentOrder>, parse: string -> real): (r: seq<OrderSummary>)
    ensures |r| == |orders|
    ensures forall i :: 0 <= i < |orders| ==> r[i] == Summary(orders[i], parse)
  {
    if |orders| == 0 then [] else Summaries(orders[..|orders| - 1], parse) + [Summary(orders[|orders| - 1], parse)]
  }

  /** What the page shows after the request: the reply's figures with a
    * fixed rating of 4.5, or, when the request fails, zeros everywhere and
    * no orders. `parse` is `parseFloat`. */
  function Dashboard(reply: Option<Reply>, parse: string -> real): (Stats, seq<OrderSummary>)
  {
    match reply
    case None => (Stats(0, 0.0, 0, 0.0), [])
    case Some(d) =>
      (Stats(OrZero(d.ordersToday), parse(OrZeroText(d.revenueToday)), OrZero(d.soldOut), 4.5),
       Summaries(if d.recentOrders.Some? then d.recentOrders.value else [], parse))
  }

  lemma DashboardFacts(reply: Option<Reply>, parse: string -> real)
    ensures reply.None? ==> Dashboard(reply, parse) == (Stats(0, 0.0, 0, 0.0), [])
    ensures reply.Some? ==> Dashboard(reply, parse).0.storeRating == 4.5
    ensures reply.Some? && (reply.value.revenueToday.None? || reply.value.revenueToday == Some("")) ==>
      Dashboard(reply, parse).0.revenueToday == parse("0")
    ensures reply.Some? && reply.value.recentOrders.Some? ==>
      var rows := Dashboard(reply, parse).1;
      var orders := reply.value.recentOrders.value;
      |rows| == |orders|
      && forall i :: 0 <= i < |orders| ==>
           rows[i].orderId == orders[i].orderId && rows[i].status == orders[i].status
           && rows[i].customerName == orders[i].customerUsername
           && (orders[i].total.None? ==> rows[i].total == parse("0"))
    ensures reply.Some? && reply.value.recentOrders.None? ==> Dashboard(reply, parse).1 == []
  {
  }
}
