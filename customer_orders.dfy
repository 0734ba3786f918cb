// The customer's order list (frontend/src/pages/CustomerOrders.tsx): the
// colour and label of each order's status, found by looking for keywords in
// the lower-cased status, and the row built from each order the backend
// returns.
module CustomerOrders {
  import opened Wrappers
  import opened Text
  import OrderModel

  // ---------------------------------------------------------------------
  // Status colour and label
  // ---------------------------------------------------------------------

  /** The keywords looked for, in the order they are tried, with the colour
    * and label each one gives. */
  const Keywords: seq<string> := ["pending", "confirmed", "ready", "delivering", "delivered", "cancelled"]
  const Colours: seq<string> := [
    "bg-yellow-100 text-yellow-800", "bg-blue-100 text-blue-800", "bg-green-100 text-green-800",
    "bg-purple-100 text-purple-800", "bg-grabGreen-100 text-grabGreen-800", "bg-red-100 text-red-800"]
  const Labels: seq<string> := ["Chờ xác nhận", "Đã xác nhận", "Sẵn sàng", "Đang giao", "Đã giao", "Đã hủy"]
  const Grey := "bg-gray-100 text-gray-800"

  function StatusColor(status: string): string
  {
    var lower := Lower(status);
    if Contains(lower, "pending") then "bg-yellow-100 text-yellow-800"
    else if Contains(lower, "confirmed") then "bg-blue-100 text-blue-800"
    else if Contains(lower, "ready") then "bg-green-100 text-green-800"
    else if Contains(lower, "delivering") then "bg-purple-100 text-purple-800"
    else if Contains(lower, "delivered") then "bg-grabGreen-100 text-grabGreen-800"
    else if Contains(lower, "cancelled") then "bg-red-100 text-red-800"
    else Grey
  }

  function StatusText(status: string): string
  {
    var lower := Lower(status);
    if Contains(lower, "pending") then "Chờ xác nhận"
    else if Contains(lower, "confirmed") then "Đã xác nhận"
    else if Contains(lower, "ready") then "Sẵn sàng"
    else if Contains(lower, "delivering") then "Đang giao"
    else if Contains(lower, "delivered") then "Đã giao"
    else if Contains(lower, "cancelled") then "Đã hủy"
    else status
  }

  /** The position, from `from` on, of the first keyword `lower` contains,
    * or the number of keywords when it contains none. */
  function FirstKeyword(lower: string, from: nat): (r: nat)
    requires from <= |Keywords|
    ensures from <= r <= |Keywords|
    ensures r < |Keywords| ==> Contains(lower, Keywords[r])
    ensures forall j :: from <= j < r ==> !Contains(lower, Keywords[j])
    decreases |Keywords| - from
  {
    if from == |Keywords| then from
    else if Contains(lower, Keywords[from]) then from
    else FirstKeyword(lower, from + 1)
  }

  /** The if-chains are the first-match lookup in the keyword table: the
    * earliest keyword found decides, and a status with none keeps the grey
    * colour and its own text. */
  lemma StatusByFirstKeyword(status: string)
    ensures var k := FirstKeyword(Lower(status), 0);
      && StatusColor(status) == (if k < |Keywords| then Colours[k] else Grey)
      && StatusText(status) == (if k < |Keywords| then Labels[k] else status)
  {
    var lower := Lower(status);
    var k := FirstKeyword(lower, 0);
    if k < |Keywords| {
      assert Contains(lower, Keywords[k]);
    }
  }

  /** Keywords are looked for anywhere and in any case, so an earlier one
    * hides a later one: "NOT_CONFIRMED_PENDING" reads as pending. */
  lemma EarlierKeywordWins(status: string, k: nat)
    requires k < |Keywords| && Contains(Lower(status), Keywords[k])
    ensures FirstKeyword(Lower(status), 0) <= k
    ensures StatusColor(status) != Grey
  {
    StatusByFirstKeyword(status);
  }

  // The backend's spellings.

  lemma ContainsPrefix(s: string, word: string)
    requires StartsWith(s, word)
    ensures Contains(s, word)
  {
  }

  /** Lower-casing a code of capitals and underscores. */
  lemma LowerCode(st: OrderModel.Status, lower: string)
    requires !st.Other?
    requires lower == match st
      case Pending => "pending"
      case Confirmed => "confirmed"
      case ReadyForPickup => "ready_for_pickup"
      case PickedUp => "picked_up"
      case Delivering => "delivering"
      case Delivered => "delivered"
      case Canceled => "canceled"
    ensures Lower(OrderModel.StatusCode(st)) == lower
  {
    LowerOfCaps(OrderModel.StatusCode(st), lower);
  }

  /** The backend's CANCELED has one L and matches no keyword: it shows in
    * grey, in English. */
  lemma CanceledFallsThrough()
    ensures StatusColor(OrderModel.StatusCode(OrderModel.Canceled)) == Grey
    ensures StatusText(OrderModel.StatusCode(OrderModel.Canceled)) == "CANCELED"
  {
    var code := OrderModel.StatusCode(OrderModel.Canceled);
    LowerCode(OrderModel.Canceled, "canceled");
    CanceledLacksKeywords("canceled");
    StatusByFirstKeyword(code);
  }

  lemma CanceledLacksKeywords(lower: string)
    requires lower == "canceled"
    ensures forall k :: 0 <= k < |Keywords| ==> !Contains(lower, Keywords[k])
  {
    MissingCharNotContained(lower, "pending", 'p');
    MissingCharNotContained(lower, "confirmed", 'o');
    MissingCharNotContained(lower, "ready", 'r');
    MissingCharNotContained(lower, "delivering", 'v');
    MissingCharNotContained(lower, "delivered", 'v');
    NotContains(lower, "cancelled");
  }

  /** PICKED_UP matches no keyword either. */
  lemma PickedUpFallsThrough()
    ensures StatusColor(OrderModel.StatusCode(OrderModel.PickedUp)) == Grey
    ensures StatusText(OrderModel.StatusCode(OrderModel.PickedUp)) == "PICKED_UP"
  {
    var code := OrderModel.StatusCode(OrderModel.PickedUp);
    LowerCode(OrderModel.PickedUp, "picked_up");
    PickedUpLacksKeywords("picked_up");
    StatusByFirstKeyword(code);
  }

  lemma PickedUpLacksKeywords(lower: string)
    requires lower == "picked_up"
    ensures forall k :: 0 <= k < |Keywords| ==> !Contains(lower, Keywords[k])
  {
    MissingCharNotContained(lower, "pending", 'n');
    MissingCharNotContained(lower, "confirmed", 'n');
    MissingCharNotContained(lower, "ready", 'r');
    MissingCharNotContained(lower, "delivering", 'v');
    MissingCharNotContained(lower, "delivered", 'v');
    MissingCharNotContained(lower, "cancelled", 'n');
  }

  /** Every other backend code gets its own colour and label: pending,
    * confirmed, ready for pickup, delivering and delivered are told apart. */
  lemma RecognisedCodes(st: OrderModel.Status)
    requires st in {OrderModel.Pending, OrderModel.Confirmed, OrderModel.ReadyForPickup, OrderModel.Delivering, OrderModel.Delivered}
    ensures var k := match st
        case Pending => 0
        case Confirmed => 1
        case ReadyForPickup => 2
        case Delivering => 3
        case _ => 4;
      StatusColor(OrderModel.StatusCode(st)) == Colours[k] && StatusText(OrderModel.StatusCode(st)) == Labels[k]
  {
    match st {
      case Pending => CodeLabelled(st, "pending", 0);
      case Confirmed => CodeLabelled(st, "confirmed", 1);
      case ReadyForPickup => CodeLabelled(st, "ready_for_pickup", 2);
      case Delivering => CodeLabelled(st, "delivering", 3);
      case Delivered => CodeLabelled(st, "delivered", 4);
    }
  }

  /** One recognised code: its lower-case spelling finds keyword `k` first. */
  lemma CodeLabelled(st: OrderModel.Status, lower: string, k: nat)
    requires (st, lower, k) in {(OrderModel.Pending, "pending", 0), (OrderModel.Confirmed, "confirmed", 1),
      (OrderModel.ReadyForPickup, "ready_for_pickup", 2), (OrderModel.Delivering, "delivering", 3),
      (OrderModel.Delivered, "delivered", 4)}
    ensures StatusColor(OrderModel.StatusCode(st)) == Colours[k] && StatusText(OrderModel.StatusCode(st)) == Labels[k]
  {
    var code := OrderModel.StatusCode(st);
    LowerCode(st, lower);
    KeywordOf(Lower(code), k);
    StatusByFirstKeyword(code);
  }

  lemma KeywordOf(lower: string, k: nat)
    requires (lower, k) in {("pending", 0), ("confirmed", 1), ("ready_for_pickup", 2), ("delivering", 3), ("delivered", 4)}
    ensures FirstKeyword(lower, 0) == k
  {
    if k == 0 { PendingKeyword(lower); }
    else if k == 1 { ConfirmedKeyword(lower); }
    else if k == 2 { ReadyKeyword(lower); }
    else if k == 3 { DeliveringKeyword(lower); }
    else { DeliveredKeyword(lower); }
  }

  lemma PendingKeyword(lower: string)
    requires lower == "pending"
    ensures FirstKeyword(lower, 0) == 0
  {
    ContainsPrefix(lower, "pending");
  }

  lemma ConfirmedKeyword(lower: string)
    requires lower == "confirmed"
    ensures FirstKeyword(lower, 0) == 1
  {
    MissingCharNotContained(lower, "pending", 'p');
    ContainsPrefix(lower, "confirmed");
  }

  lemma ReadyKeyword(lower: string)
    requires lower == "ready_for_pickup"
    ensures FirstKeyword(lower, 0) == 2
  {
    MissingCharNotContained(lower, "pending", 'n');
    MissingCharNotContained(lower, "confirmed", 'n');
    ContainsPrefix(lower, "ready");
    assert FirstKeyword(lower, 1) == 2;
  }

  lemma DeliveringKeyword(lower: string)
    requires 'p' !in lower && 'c' !in lower && 'a' !in lower && StartsWith(lower, "delivering")
    ensures FirstKeyword(lower, 0) == 3
  {
    DeliveryCodesSkipEarlyKeywords(lower);
    ContainsPrefix(lower, "delivering");
    FirstKeywordAt(lower, 3);
  }

  lemma DeliveredKeyword(lower: string)
    requires 'p' !in lower && 'c' !in lower && 'a' !in lower && 'n' !in lower
    requires StartsWith(lower, "delivered")
    ensures FirstKeyword(lower, 0) == 4
  {
    DeliveryCodesSkipEarlyKeywords(lower);
    MissingCharNotContained(lower, "delivering", 'n');
    ContainsPrefix(lower, "delivered");
    FirstKeywordAt(lower, 4);
  }

  lemma DeliveryCodesSkipEarlyKeywords(lower: string)
    requires 'p' !in lower && 'c' !in lower && 'a' !in lower
    ensures !Contains(lower, Keywords[0]) && !Contains(lower, Keywords[1]) && !Contains(lower, Keywords[2])
  {
    MissingCharNotContained(lower, "pending", 'p');
    MissingCharNotContained(lower, "confirmed", 'c');
    MissingCharNotContained(lower, "ready", 'a');
  }

  /** The earliest keyword present is the first one found. */
  lemma FirstKeywordAt(lower: string, k: nat)
    requires k < |Keywords| && Contains(lower, Keywords[k])
    requires forall j :: 0 <= j < k ==> !Contains(lower, Keywords[j])
    ensures FirstKeyword(lower, 0) == k
  {
  }

  // ---------------------------------------------------------------------
  // Rows
  // ---------------------------------------------------------------------

  /** An order item as the backend sends it. */
  datatype Item = Item(quantity: Option<int>)

  /** An order as the backend sends it; absent fields are `None`. */
  datatype OrderReply = OrderReply(
    id: int, orderId: Option<int>,
    merchantName: Option<string>, merchantObjectName: Option<string>,
    total: Option<string>, totalAmount: Option<string>,
    status: string, createdAt: Option<string>, orderTime: Option<string>,
    itemsCount: Option<int>, items: Option<seq<Item>>, totalQuantity: Option<int>)

  datatype OrderRow = OrderRow(
    id: int, orderId: int, merchantName: Option<string>, total: real, status: string,
    createdAt: Option<string>, itemsCount: int, totalQuantity: int)

  /** A JavaScript number used as a condition: present and non-zero. */
  predicate NonZero(n: Option<int>)
  {
    n.Some? && n.value != 0
  }

  /** `item.quantity || 0`. */
  function Quantity(item: Item): int
  {
    if NonZero(item.quantity) then item.quantity.value else 0
  }

  /** The running sum of `reduce`, item by item. */
  function SumQuantities(items: seq<Item>): int
  {
    if |items| == 0 then 0 else SumQuantities(items[..|items| - 1]) + Quantity(items[|items| - 1])
  }

  /** Items without a quantity add nothing, and the sum splits over a
    * concatenation. */
  lemma {:induction false} SumQuantitiesAppend(a: seq<Item>, b: seq<Item>)
    ensures SumQuantities(a + b) == SumQuantities(a) + SumQuantities(b)
    decreases |b|
  {
    if |b| == 0 {
      assert a + b == a;
    } else {
      assert (a + b)[..|a + b| - 1] == a + b[..|b| - 1];
      SumQuantitiesAppend(a, b[..|b| - 1]);
    }
  }

  lemma {:induction false} SumOfNonNegative(items: seq<Item>)
    requires forall i :: 0 <= i < |items| ==> items[i].quantity.None? || items[i].quantity.value >= 0
    ensures SumQuantities(items) >= 0
    ensures SumQuantities(items) == 0 <==> forall i :: 0 <= i < |items| ==> Quantity(items[i]) == 0
    decreases |items|
  {
    if |items| > 0 {
      var init := items[..|items| - 1];
      SumOfNonNegative(init);
      assert forall i :: 0 <= i < |init| ==> items[i] == init[i];
    }
  }

  function ToRow(o: OrderReply, parse: string -> real): (r: OrderRow)
    ensures NonZero(o.totalQuantity) ==> r.totalQuantity == o.totalQuantity.value
    ensures !NonZero(o.totalQuantity) ==>
      r.totalQuantity == (if o.items.Some? then SumQuantities(o.items.value) else 0)
    ensures r.orderId == (if NonZero(o.orderId) then o.orderId.value else o.id)
    ensures r.total == parse(if Truthy(o.total) then o.total.value
                             else if Truthy(o.totalAmount) then o.totalAmount.value else "0")
    ensures r.itemsCount == (if NonZero(o.itemsCount) then o.itemsCount.value
                             else if o.items.Some? then |o.items.value| else 0)
    ensures r.status == o.status
  {
    var totalQuantity :=
      if NonZero(o.totalQuantity) then o.totalQuantity.value
      else if o.items.Some? then SumQuantities(o.items.value) else 0;
    var itemsCount :=
      if NonZero(o.itemsCount) then o.itemsCount.value
      else if o.items.Some? && |o.items.value| != 0 then |o.items.value| else 0;
    OrderRow(o.id, if NonZero(o.orderId) then o.orderId.value else o.id,
        Or(o.merchantName, o.merchantObjectName),
        parse(Or(Or(o.total, o.totalAmount), Some("0")).value),
        o.status, Or(o.createdAt, o.orderTime), itemsCount, totalQuantity)
  }

  function Rows(orders: seq<OrderReply>, parse: string -> real): (r: seq<OrderRow>)
    ensures |r| == |orders|
    ensures forall i :: 0 <= i < |orders| ==> r[i] == ToRow(orders[i], parse)
  {
    if |orders| == 0 then [] else Rows(orders[..|orders| - 1], parse) + [ToRow(orders[|orders| - 1], parse)]
  }

  /** The list shown: one row per order in the reply's order, or nothing
    * when the request fails. `parse` is `parseFloat`. */
  function Orders(reply: Option<seq<OrderReply>>, parse: string -> real): (r: seq<OrderRow>)
    ensures reply.None? ==> r == []
    ensures reply.Some? ==>
      |r| == |reply.value|
      && forall i :: 0 <= i < |r| ==> r[i].id == reply.value[i].id && r[i].status == reply.value[i].status
  {
    match reply
    case None => []
    case Some(orders) => Rows(orders, parse)
  }
}
