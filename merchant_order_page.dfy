// The merchant's order page (frontend/src/pages/Merchant/MerchantConfirmOrder.tsx):
// how long ago the order was placed, the status badge, the buttons and links
// each status offers, and the status each button asks the backend for.
module MerchantOrderPage {
  import opened Wrappers
  import opened Text
  import OrderModel

  // ---------------------------------------------------------------------
  // "… ago"
  // ---------------------------------------------------------------------

  datatype TimeUnit = Years | Months | Days | Hours | Minutes | Seconds

  /** A year is 365 days and a month 30. */
  function UnitSeconds(u: TimeUnit): nat
  {
    match u
    case Years => 31536000
    case Months => 2592000
    case Days => 86400
    case Hours => 3600
    case Minutes => 60
    case Seconds => 1
  }

  function Suffix(u: TimeUnit): string
  {
    match u
    case Years => " năm trước"
    case Months => " tháng trước"
    case Days => " ngày trước"
    case Hours => " giờ trước"
    case Minutes => " phút trước"
    case Seconds => " giây trước"
  }

  datatype Ago = Ago(count: int, unit: TimeUnit)

  /** The largest unit of which more than one has elapsed, and how many
    * whole ones; whole seconds when not even one minute and a bit. */
  function Elapsed(seconds: int): (r: Ago)
    ensures r.unit != Seconds ==>
      seconds > UnitSeconds(r.unit) && r.count >= 1
      && r.count * UnitSeconds(r.unit) <= seconds < (r.count + 1) * UnitSeconds(r.unit)
    ensures r.unit == Seconds ==> r.count == seconds && seconds <= 60
    ensures forall u :: UnitSeconds(u) > UnitSeconds(r.unit) ==> seconds <= UnitSeconds(u)
  {
    if seconds > 31536000 then Ago(seconds / 31536000, Years)
    else if seconds > 2592000 then Ago(seconds / 2592000, Months)
    else if seconds > 86400 then Ago(seconds / 86400, Days)
    else if seconds > 3600 then Ago(seconds / 3600, Hours)
    else if seconds > 60 then Ago(seconds / 60, Minutes)
    else Ago(seconds, Seconds)
  }

  /** `timeSince`, given the whole seconds since the order time, or `None`
    * when the order time does not parse. */
  function TimeSince(seconds: Option<int>): string
  {
    match seconds
    case None => "NaN" + Suffix(Seconds)
    case Some(s) => IntToString(Elapsed(s).count) + Suffix(Elapsed(s).unit)
  }

  /** The text reads back as the count and the unit it was made from. */
  lemma TimeSinceReadsBack(s: int)
    ensures ParseInt(TimeSince(Some(s))) == Some(Elapsed(s).count)
    ensures TimeSince(Some(s)) == IntToString(Elapsed(s).count) + Suffix(Elapsed(s).unit)
  {
    ParseIntOfIntToString(Elapsed(s).count, Suffix(Elapsed(s).unit));
  }

  /** A full minute still reads in seconds; a second more is one minute. */
  lemma MinuteBoundary()
    ensures Elapsed(60) == Ago(60, Seconds) && Elapsed(61) == Ago(1, Minutes)
    ensures Elapsed(120) == Ago(2, Minutes)
  {
  }

  // ---------------------------------------------------------------------
  // Actions
  // ---------------------------------------------------------------------

  datatype Action = Confirm | Ready | Cancel

  function ActionStatus(a: Action): string
  {
    match a
    case Confirm => "CONFIRMED"
    case Ready => "READY_FOR_PICKUP"
    case Cancel => "CANCELED"
  }

  /** Each button asks for a status the backend knows, spelled its way. */
  lemma ActionStatusIsBackendCode(a: Action)
    ensures OrderModel.IsChoice(ActionStatus(a))
    ensures ActionStatus(a) == OrderModel.StatusCode(
      match a
      case Confirm => OrderModel.Confirmed
      case Ready => OrderModel.ReadyForPickup
      case Cancel => OrderModel.Canceled)
  {
  }

  /** What pressing a button sends: nothing without loaded details or an id
    * in the address, nothing when the id does not parse, else a status
    * change for the parsed id. */
  datatype ActionRequest = InvalidOrder | InvalidId | SetStatus(orderId: int, status: string)

  function HandleAction(hasDetails: bool, orderId: string, a: Action): (r: ActionRequest)
    ensures r.SetStatus? <==> hasDetails && orderId != "" && ParseInt(orderId).Some?
    ensures r.SetStatus? ==> r.orderId == ParseInt(orderId).value && r.status == ActionStatus(a)
  {
    if !hasDetails || orderId == "" then InvalidOrder
    else match ParseInt(orderId)
      case None => InvalidId
      case Some(n) => SetStatus(n, ActionStatus(a))
  }

  /** An id without digits never reaches the backend; an id that starts
    * with a number is read up to its first non-digit. */
  lemma HandleActionIds(orderId: string, n: int, rest: string, a: Action)
    requires |rest| == 0 || !IsDigit(rest[0])
    ensures (forall i :: 0 <= i < |orderId| ==> !IsDigit(orderId[i])) ==> !HandleAction(true, orderId, a).SetStatus?
    ensures HandleAction(true, IntToString(n) + rest, a) == SetStatus(n, ActionStatus(a))
  {
    if forall i :: 0 <= i < |orderId| ==> !IsDigit(orderId[i]) {
      ParseIntNaN(orderId);
    }
    ParseIntOfIntToString(n, rest);
  }

  // ---------------------------------------------------------------------
  // The loaded order
  // ---------------------------------------------------------------------

  const CardLabel := "VISA •••• 4242"
  const CashLabel := "Tiền mặt"

  /** Only 'card' is shown as a card; everything else is cash. */
  function PaymentLabel(paymentMethod: Option<string>): (r: string)
    ensures r == CardLabel <==> paymentMethod == Some("card")
  {
    if paymentMethod == Some("card") then CardLabel else CashLabel
  }

  /** `data.status || 'PENDING'`. */
  function StoredStatus(raw: Option<string>): string
  {
    if Truthy(raw) then raw.value else "PENDING"
  }

  predicate IsCancelled(normalized: string)
  {
    normalized == "CANCELED" || normalized == "CANCELLED"
  }

  /** The refund link's test. */
  predicate RefundLink(paymentLabel: string)
  {
    paymentLabel != "" && paymentLabel != "Cash"
  }

  /** The payment label is never "Cash", so the refund link shows whatever
    * the order was paid with. */
  lemma RefundLinkAlways(paymentMethod: Option<string>)
    ensures RefundLink(PaymentLabel(paymentMethod))
  {
  }

  /** The action area: confirm or reject a new order; mark a confirmed one
    * ready, cancel it or open the out-of-stock and refund pages; only the
    * two pages for a ready one; nothing else for any other status. */
  datatype Panel = PendingPanel | ConfirmedPanel(refund: bool) | ReadyPanel(refund: bool) | ProcessedPanel

  function ActionPanel(status: string, paymentLabel: string): Panel
  {
    var normalized := Upper(status);
    if normalized == "PENDING" && !IsCancelled(normalized) then PendingPanel
    else if normalized == "CONFIRMED" && !IsCancelled(normalized) then ConfirmedPanel(RefundLink(paymentLabel))
    else if normalized == "READY_FOR_PICKUP" && !IsCancelled(normalized) then ReadyPanel(RefundLink(paymentLabel))
    else ProcessedPanel
  }

  function Offers(p: Panel): set<Action>
  {
    match p
    case PendingPanel => {Confirm, Cancel}
    case ConfirmedPanel(_) => {Ready, Cancel}
    case ReadyPanel(_) => {}
    case ProcessedPanel => {}
  }

  /** The buttons by status, whatever its case: a pending order can be
    * confirmed or rejected, a confirmed one made ready or cancelled, and a
    * ready one can no longer be cancelled. */
  lemma ButtonsByStatus(status: string, paymentLabel: string)
    ensures Upper(status) == "PENDING" ==> Offers(ActionPanel(status, paymentLabel)) == {Confirm, Cancel}
    ensures Upper(status) == "CONFIRMED" ==> Offers(ActionPanel(status, paymentLabel)) == {Ready, Cancel}
    ensures Upper(status) == "READY_FOR_PICKUP" ==> Cancel !in Offers(ActionPanel(status, paymentLabel))
    ensures Confirm in Offers(ActionPanel(status, paymentLabel)) <==> Upper(status) == "PENDING"
    ensures Ready in Offers(ActionPanel(status, paymentLabel)) <==> Upper(status) == "CONFIRMED"
  {
  }

  /** Upper-casing leaves the status codes the buttons send as they are. */
  lemma ActionStatusIsUpper(a: Action)
    ensures Upper(ActionStatus(a)) == ActionStatus(a)
  {
    match a {
      case Confirm => UpperOfCaps("CONFIRMED");
      case Ready => UpperOfCaps("READY_FOR_PICKUP");
      case Cancel => UpperOfCaps("CANCELED");
    }
  }

  /** Once the status an action asks for is stored, the page offers the next
    * step: a confirmed order can be made ready, a ready one shows only its
    * links, a cancelled one nothing. */
  lemma ActionLeadsTo(a: Action, paymentMethod: Option<string>)
    ensures ActionPanel(ActionStatus(a), PaymentLabel(paymentMethod)) ==
      match a
      case Confirm => ConfirmedPanel(true)
      case Ready => ReadyPanel(true)
      case Cancel => ProcessedPanel
  {
    ActionStatusIsUpper(a);
  }

  // ---------------------------------------------------------------------
  // The status badge
  // ---------------------------------------------------------------------

  /** The badge colour: "pending" is recognised in any case, but the
    * confirmed and ready colours test the status as stored. */
  function BadgeClass(status: string): string
  {
    var normalized := Upper(status);
    if normalized == "PENDING" then "bg-red-500 text-white animate-pulse"
    else if status == "CONFIRMED" then "bg-yellow-500 text-white"
    else if status == "READY_FOR_PICKUP" then "bg-grabGreen-700 text-white"
    else if IsCancelled(normalized) then "bg-gray-400 text-white"
    else "bg-blue-500 text-white"
  }

  /** The badge text, recognising every status in any case and showing an
    * unknown one as stored. */
  function BadgeText(status: string): string
  {
    var normalized := Upper(status);
    if normalized == "PENDING" then "CHỜ XÁC NHẬN"
    else if IsCancelled(normalized) then "ĐÃ HỦY"
    else if normalized == "CONFIRMED" then "ĐÃ XÁC NHẬN"
    else if normalized == "READY_FOR_PICKUP" then "SẴN SÀNG"
    else status
  }

  /** A status that upper-cases to "CONFIRMED" without being spelled so
    * ("confirmed", "Confirmed") reads the same as "CONFIRMED" but gets the
    * colour of an unknown status. */
  lemma BadgeCaseMismatch(status: string)
    requires Upper(status) == "CONFIRMED" && status != "CONFIRMED"
    ensures BadgeText(status) == BadgeText("CONFIRMED") == "ĐÃ XÁC NHẬN"
    ensures BadgeClass(status) == "bg-blue-500 text-white" != BadgeClass("CONFIRMED")
  {
    ActionStatusIsUpper(Confirm);
  }
}
