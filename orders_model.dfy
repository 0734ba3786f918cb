// The order tables: orders, their lines, and the two status enumerations.
module OrderModel {
  import opened Wrappers

  /** Order status. The column is a string: the seven choices, or any other
    * text an administrator stores through `set_status`. */
  datatype Status =
    | Pending
    | Confirmed
    | ReadyForPickup
    | PickedUp
    | Delivering
    | Delivered
    | Canceled
    | Other(raw: string)

  /** The text stored in the `status` column. */
  function StatusCode(st: Status): string
  {
    match st
    case Pending => "PENDING"
    case Confirmed => "CONFIRMED"
    case ReadyForPickup => "READY_FOR_PICKUP"
    case PickedUp => "PICKED_UP"
    case Delivering => "DELIVERING"
    case Delivered => "DELIVERED"
    case Canceled => "CANCELED"
    case Other(raw) => raw
  }

  predicate IsChoice(s: string)
  {
    s in {"PENDING", "CONFIRMED", "READY_FOR_PICKUP", "PICKED_UP", "DELIVERING", "DELIVERED", "CANCELED"}
  }

  /** Reading the `status` column back. */
  function ParseStatus(s: string): (st: Status)
    ensures st.Other? <==> !IsChoice(s)
  {
    if s == "PENDING" then Pending
    else if s == "CONFIRMED" then Confirmed
    else if s == "READY_FOR_PICKUP" then ReadyForPickup
    else if s == "PICKED_UP" then PickedUp
    else if s == "DELIVERING" then Delivering
    else if s == "DELIVERED" then Delivered
    else if s == "CANCELED" then Canceled
    else Other(s)
  }

  /** A status is well formed when an `Other` does not spell one of the choices. */
  predicate WellFormed(st: Status)
  {
    st.Other? ==> !IsChoice(st.raw)
  }

  /** Storing a status and reading it back gives the same status. */
  lemma ParseStatusCode(st: Status)
    requires WellFormed(st)
    ensures ParseStatus(StatusCode(st)) == st
  {
  }

  /** Reading a column and storing the result writes back the same text. */
  lemma StatusCodeParse(s: string)
    ensures StatusCode(ParseStatus(s)) == s && WellFormed(ParseStatus(s))
  {
  }

  datatype PaymentStatus = Unpaid | Paid | Refunded

  /** One order line: a snapshot of the dish's name and unit price at checkout.
    * `menuItem` becomes `None` when the dish is deleted. */
  datatype OrderItem = OrderItem(
    id: int,
    menuItem: Option<int>,
    name: string,
    price: int,
    quantity: int,
    lineTotal: int)

  datatype Order = Order(
    customer: int,
    merchant: int,
    shipper: Option<int>,
    status: Status,
    payment: PaymentStatus,
    total: int,
    address: string,
    note: string,
    createdAt: int,
    items: seq<OrderItem>)

  /** The row checkout inserts before looking at the basket. */
  function NewOrder(customer: int, merchant: int, address: string, note: string, now: int): (o: Order)
    ensures o.status == Pending && o.payment == Unpaid && o.total == 0
    ensures o.shipper.None? && o.items == []
    ensures o.customer == customer && o.merchant == merchant && o.createdAt == now
  {
    Order(customer, merchant, None, Pending, Unpaid, 0, address, note, now, [])
  }

  /** An order a shipper may claim: ready for pickup and not yet claimed. */
  predicate IsAvailableForShipper(o: Order)
  {
    o.status == ReadyForPickup && o.shipper.None?
  }

  /** Sum of the stored line totals. */
  function SumLineTotals(items: seq<OrderItem>): int
  {
    if |items| == 0 then 0 else items[0].lineTotal + SumLineTotals(items[1..])
  }

  /** Sum of price snapshot times quantity, the documented meaning of `line_total`. */
  function SumPriceTimesQty(items: seq<OrderItem>): int
  {
    if |items| == 0 then 0 else items[0].price * items[0].quantity + SumPriceTimesQty(items[1..])
  }

  /** Quantity ordered of dish `id` across the lines. */
  function QtyFor(items: seq<OrderItem>, id: int): int
  {
    if |items| == 0 then 0
    else (if items[0].menuItem == Some(id) then items[0].quantity else 0) + QtyFor(items[1..], id)
  }

  /** Every line's total is its snapshot price times its quantity. */
  predicate LinesConsistent(items: seq<OrderItem>)
  {
    forall i :: 0 <= i < |items| ==> items[i].lineTotal == items[i].price * items[i].quantity
  }

  lemma {:induction false} SumsAgree(items: seq<OrderItem>)
    requires LinesConsistent(items)
    ensures SumLineTotals(items) == SumPriceTimesQty(items)
    decreases |items|
  {
    if |items| > 0 {
      SumsAgree(items[1..]);
    }
  }

  lemma {:induction false} SumLineTotalsAppend(a: seq<OrderItem>, b: seq<OrderItem>)
    ensures SumLineTotals(a + b) == SumLineTotals(a) + SumLineTotals(b)
    decreases |a|
  {
    if |a| == 0 {
      assert a + b == b;
    } else {
      assert (a + b)[1..] == a[1..] + b;
      SumLineTotalsAppend(a[1..], b);
    }
  }

  lemma {:induction false} QtyForAppend(a: seq<OrderItem>, b: seq<OrderItem>, id: int)
    ensures QtyFor(a + b, id) == QtyFor(a, id) + QtyFor(b, id)
    decreases |a|
  {
    if |a| == 0 {
      assert a + b == b;
    } else {
      assert (a + b)[1..] == a[1..] + b;
      QtyForAppend(a[1..], b, id);
    }
  }

  /** Some line takes stock from dish `id`. */
  predicate Touched(lines: seq<OrderItem>, id: int)
  {
    exists i :: 0 <= i < |lines| && lines[i].menuItem == Some(id)
  }

  lemma TouchedAppend(lines: seq<OrderItem>, line: OrderItem, id: int)
    ensures Touched(lines + [line], id) <==> Touched(lines, id) || line.menuItem == Some(id)
  {
    if Touched(lines, id) {
      var i :| 0 <= i < |lines| && lines[i].menuItem == Some(id);
      assert (lines + [line])[i] == lines[i];
    }
    if line.menuItem == Some(id) {
      assert (lines + [line])[|lines|] == line;
    }
  }

  lemma {:induction false} UntouchedQty(lines: seq<OrderItem>, id: int)
    requires !Touched(lines, id)
    ensures QtyFor(lines, id) == 0
    decreases |lines|
  {
    if |lines| > 0 {
      assert lines[0].menuItem != Some(id);
      assert !Touched(lines[1..], id);
      UntouchedQty(lines[1..], id);
    }
  }
}
