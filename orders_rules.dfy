// The decisions the order endpoints take besides checkout: who may do what,
// how a cancellation puts stock back, the shipper transitions, stock
// adjustment, out-of-stock handling, refunds and the shipper's order list.
module OrderRules {
  import opened Wrappers
  import opened Params
  import opened Lists
  import opened MenuModel
  import opened OrderModel
  import opened Checkout

  // ---------------------------------------------------------------------
  // Roles and access
  // ---------------------------------------------------------------------

  /** `get_user_role`: the profile's role when there is a profile with a
    * non-empty role, else "customer". */
  function UserRole(profileRole: Option<string>): (r: string)
    ensures r != ""
    ensures r == "customer" <==> profileRole.None? || profileRole.value in {"", "customer"}
    ensures r != "customer" ==> profileRole == Some(r)
  {
    if profileRole.Some? && profileRole.value != "" then profileRole.value else "customer"
  }

  /** `user_merchants`: the stores `user` owns or is a member of. */
  function UserMerchants(merchants: map<int, Merchant>, members: Members, user: int): (r: set<int>)
    ensures forall m :: m in r <==> m in merchants && (merchants[m].owner == user || (m, user) in members)
  {
    set m | m in merchants && (merchants[m].owner == user || (m, user) in members)
  }

  /** The gate shared by the merchant-side endpoints: role merchant or
    * admin, and a merchant may only act on their own stores. */
  datatype Gate = GateForbidden | GateNotFound | GateOpen

  function StaffGate(role: string, found: bool, ofMyStore: bool): (g: Gate)
    ensures g == GateOpen <==> (role == "admin" || role == "merchant") && found && (role == "merchant" ==> ofMyStore)
    ensures g == GateNotFound ==> role in {"admin", "merchant"} && !found
  {
    if role != "merchant" && role != "admin" then GateForbidden
    else if !found then GateNotFound
    else if role == "merchant" && !ofMyStore then GateForbidden
    else GateOpen
  }

  // ---------------------------------------------------------------------
  // Putting stock back
  // ---------------------------------------------------------------------

  /** One iteration of the restock loop of `cancel` and `set_status`: a line
    * whose dish still exists gives its quantity back, and the dish becomes
    * available when its stock is positive. */
  function RestockLine(items: map<int, MenuItem>, line: OrderItem): map<int, MenuItem>
  {
    if line.menuItem.Some? && line.menuItem.value in items then
      var m := items[line.menuItem.value];
      var s := m.stock + line.quantity;
      items[line.menuItem.value := m.(stock := s, available := if s > 0 then true else m.available)]
    else items
  }

  /** The restock loop over all lines of an order. */
  function Restock(items: map<int, MenuItem>, lines: seq<OrderItem>): map<int, MenuItem>
    decreases |lines|
  {
    if |lines| == 0 then items else Restock(RestockLine(items, lines[0]), lines[1..])
  }

  predicate NonNegativeQuantities(lines: seq<OrderItem>)
  {
    forall i :: 0 <= i < |lines| ==> lines[i].quantity >= 0
  }

  /** Restocking gives every dish back exactly the quantity the lines hold
    * of it; nothing but stock and availability changes, and a dish the
    * lines do not name is untouched. With non-negative quantities, an
    * ordered dish ends up available iff it was or its final stock is
    * positive: the loop never sets the flag to false. */
  lemma {:induction false} RestockEffect(items: map<int, MenuItem>, lines: seq<OrderItem>)
    requires NonNegativeQuantities(lines)
    ensures Restock(items, lines).Keys == items.Keys
    ensures forall id :: id in items ==> Restock(items, lines)[id].stock == items[id].stock + QtyFor(lines, id)
    ensures forall id :: id in items ==> SameDish(Restock(items, lines)[id], items[id])
    ensures forall id :: id in items && !Touched(lines, id) ==> Restock(items, lines)[id] == items[id]
    ensures forall id :: id in items && Touched(lines, id) ==>
      Restock(items, lines)[id].available == (items[id].available || Restock(items, lines)[id].stock > 0)
    decreases |lines|
  {
    if |lines| > 0 {
      var items1 := RestockLine(items, lines[0]);
      var rest := lines[1..];
      assert NonNegativeQuantities(rest) by {
        forall i | 0 <= i < |rest| ensures rest[i].quantity >= 0 {
          assert rest[i] == lines[i + 1];
        }
      }
      RestockEffect(items1, rest);
      assert lines == [lines[0]] + rest;
      forall id | id in items
        ensures Touched(lines, id) <==> lines[0].menuItem == Some(id) || Touched(rest, id)
      {
        if Touched(rest, id) {
          var i :| 0 <= i < |rest| && rest[i].menuItem == Some(id);
          assert lines[i + 1] == rest[i];
        }
      }
      forall id | id in items && !Touched(rest, id)
        ensures QtyFor(rest, id) == 0
      {
        UntouchedQty(rest, id);
      }
      forall id | id in items && Touched(rest, id)
        ensures Restock(items, lines)[id].stock >= items1[id].stock
      {
        QtyForNonNegative(rest, id);
      }
    }
  }

  lemma {:induction false} QtyForNonNegative(lines: seq<OrderItem>, id: int)
    requires NonNegativeQuantities(lines)
    ensures QtyFor(lines, id) >= 0
    decreases |lines|
  {
    if |lines| > 0 {
      assert lines[0].quantity >= 0;
      assert NonNegativeQuantities(lines[1..]) by {
        forall i | 0 <= i < |lines| - 1 ensures lines[1..][i].quantity >= 0 {
          assert lines[1..][i] == lines[i + 1];
        }
      }
      QtyForNonNegative(lines[1..], id);
    }
  }

  /** The lines the restock loop acts on: those whose dish still exists. */
  function Restorable(items: map<int, MenuItem>, lines: seq<OrderItem>): (r: seq<OrderItem>)
    ensures |r| <= |lines|
    ensures forall l :: l in r ==> l in lines && l.menuItem.Some? && l.menuItem.value in items
    decreases |lines|
  {
    if |lines| == 0 then []
    else (if lines[0].menuItem.Some? && lines[0].menuItem.value in items then [lines[0]] else [])
         + Restorable(items, lines[1..])
  }

  function TotalQuantity(lines: seq<OrderItem>): int
  {
    if |lines| == 0 then 0 else lines[0].quantity + TotalQuantity(lines[1..])
  }

  lemma {:induction false} RestorableAppend(items: map<int, MenuItem>, a: seq<OrderItem>, b: seq<OrderItem>)
    ensures Restorable(items, a + b) == Restorable(items, a) + Restorable(items, b)
    decreases |a|
  {
    if |a| == 0 {
      assert a + b == b;
    } else {
      var head := if a[0].menuItem.Some? && a[0].menuItem.value in items then [a[0]] else [];
      assert (a + b)[0] == a[0] && (a + b)[1..] == a[1..] + b;
      assert Restorable(items, a + b) == head + Restorable(items, a[1..] + b);
      RestorableAppend(items, a[1..], b);
      assert Restorable(items, a) == head + Restorable(items, a[1..]);
      AppendAssoc(head, Restorable(items, a[1..]), Restorable(items, b));
    }
  }

  lemma {:induction false} TotalQuantityAppend(a: seq<OrderItem>, b: seq<OrderItem>)
    ensures TotalQuantity(a + b) == TotalQuantity(a) + TotalQuantity(b)
    decreases |a|
  {
    if |a| == 0 {
      assert a + b == b;
    } else {
      assert (a + b)[1..] == a[1..] + b;
      TotalQuantityAppend(a[1..], b);
    }
  }

  /** The restorable lines from position `i` on: the line at `i` when its
    * dish exists, then those after it. */
  lemma RestorableFrom(items: map<int, MenuItem>, lines: seq<OrderItem>, i: nat)
    requires i < |lines|
    ensures var hit := lines[i].menuItem.Some? && lines[i].menuItem.value in items;
      && |Restorable(items, lines[i..])| == (if hit then 1 else 0) + |Restorable(items, lines[i + 1..])|
      && TotalQuantity(Restorable(items, lines[i..]))
         == (if hit then lines[i].quantity else 0) + TotalQuantity(Restorable(items, lines[i + 1..]))
  {
    assert lines[i..][0] == lines[i] && lines[i..][1..] == lines[i + 1..];
    var rest := Restorable(items, lines[i + 1..]);
    if lines[i].menuItem.Some? && lines[i].menuItem.value in items {
      assert ([lines[i]] + rest)[0] == lines[i] && ([lines[i]] + rest)[1..] == rest;
    } else {
      assert [] + rest == rest;
    }
  }

  /** Restocking two batches of lines one after the other is restocking them together. */
  lemma {:induction false} RestockAppend(items: map<int, MenuItem>, a: seq<OrderItem>, b: seq<OrderItem>)
    ensures Restock(items, a + b) == Restock(Restock(items, a), b)
    decreases |a|
  {
    if |a| == 0 {
      assert a + b == b;
    } else {
      assert (a + b)[1..] == a[1..] + b;
      RestockAppend(RestockLine(items, a[0]), a[1..], b);
    }
  }

  /** Restocking adds no dish and removes none. */
  lemma {:induction false} RestockKeys(items: map<int, MenuItem>, lines: seq<OrderItem>)
    ensures Restock(items, lines).Keys == items.Keys
    decreases |lines|
  {
    if |lines| > 0 {
      RestockKeys(RestockLine(items, lines[0]), lines[1..]);
    }
  }

  /** Which lines the loop acts on depends only on which dishes exist. */
  lemma {:induction false} RestorableSameKeys(i1: map<int, MenuItem>, i2: map<int, MenuItem>, lines: seq<OrderItem>)
    requires i1.Keys == i2.Keys
    ensures Restorable(i1, lines) == Restorable(i2, lines)
    decreases |lines|
  {
    if |lines| > 0 {
      RestorableSameKeys(i1, i2, lines[1..]);
    }
  }

  /** Restocking lines that were already given back gives them back a
    * second time: nothing in the restock records that it ran. */
  lemma RestockTwice(items: map<int, MenuItem>, lines: seq<OrderItem>)
    requires NonNegativeQuantities(lines)
    ensures Restock(Restock(items, lines), lines).Keys == items.Keys
    ensures forall id :: id in items ==>
      Restock(Restock(items, lines), lines)[id].stock == items[id].stock + 2 * QtyFor(lines, id)
  {
    RestockEffect(items, lines);
    RestockEffect(Restock(items, lines), lines);
  }

  /** Checkout followed by the restock of its lines gives every dish back its
    * stock from before the checkout. A dish that was not ordered is exactly
    * as before; an ordered dish ends up available iff its stock is positive,
    * whatever its flag was before the checkout. */
  lemma CheckoutThenRestock(items: map<int, MenuItem>, merchants: map<int, Merchant>, role: string,
                            merchantId: Option<int>, payload: Payload, firstLineId: int)
    requires CheckoutResultOf(items, merchants, role, merchantId, payload, firstLineId).Accepted?
    ensures var p := CheckoutResultOf(items, merchants, role, merchantId, payload, firstLineId).p;
      var back := Restock(p.items, p.lines);
      && back.Keys == items.Keys
      && (forall id :: id in items ==> back[id].stock == items[id].stock)
      && (forall id :: id in items && !Touched(p.lines, id) ==> back[id] == items[id])
      && (forall id :: id in items && Touched(p.lines, id) ==> back[id] == items[id].(available := items[id].stock > 0))
  {
    var p := CheckoutResultOf(items, merchants, role, merchantId, payload, firstLineId).p;
    CheckoutAccepted(items, merchants, role, merchantId, payload, firstLineId);
    assert NonNegativeQuantities(p.lines) by {
      forall i | 0 <= i < |p.lines| ensures p.lines[i].quantity >= 0 {
        assert LineOf(items, p.lines[i], merchantId.value);
      }
    }
    RestockEffect(p.items, p.lines);
    forall id | id in items && Touched(p.lines, id)
      ensures QtyFor(p.lines, id) >= 0
    {
      QtyForNonNegative(p.lines, id);
    }
  }

  // ---------------------------------------------------------------------
  // cancel
  // ---------------------------------------------------------------------

  /** The statuses in which the kitchen has not started: cancel and the
    * restock branch of `set_status` accept these. */
  predicate BeforeKitchen(st: Status)
  {
    st == Pending || st == Confirmed
  }

  /** The order row after a cancellation: CANCELED, and a paid order refunded. */
  function CancelledOrder(o: Order): (c: Order)
    ensures c.status == Canceled
    ensures c.payment == (if o.payment == Paid then Refunded else o.payment)
    ensures c.payment != Paid
    ensures c == o.(status := c.status, payment := c.payment)
  {
    o.(status := Canceled, payment := if o.payment == Paid then Refunded else o.payment)
  }

  datatype CancelOutcome = CancelNotFound | CancelBadStatus(status: Status) | CancelDone

  /** `cancel`: only the customer's own order, only before the kitchen starts. */
  function CancelDecision(o: Option<Order>, user: int): (r: CancelOutcome)
    ensures r == CancelDone <==> o.Some? && o.value.customer == user && BeforeKitchen(o.value.status)
  {
    if o.None? || o.value.customer != user then CancelNotFound
    else if !BeforeKitchen(o.value.status) then CancelBadStatus(o.value.status)
    else CancelDone
  }

  /** A cancelled order cannot be cancelled again, so its stock is given back once. */
  lemma CancelOnce(o: Order, user: int)
    ensures CancelDecision(Some(CancelledOrder(o)), user) != CancelDone
  {
  }

  // ---------------------------------------------------------------------
  // set_status
  // ---------------------------------------------------------------------

  datatype SetStatusOutcome = SetNotFound | StatusRequired | SetForbidden | StatusSet

  /** The role table of `set_status`. */
  function MaySetStatus(role: string, ownOrder: bool, storeOrder: bool, s: string): (r: bool)
    ensures r && s !in {"CONFIRMED", "CANCELED", "READY_FOR_PICKUP"} ==> role == "admin"
    ensures r && role == "customer" ==> ownOrder && s == "CANCELED"
    ensures r && role == "merchant" ==> storeOrder
    ensures role == "admin" ==> r
    ensures role !in {"customer", "merchant", "admin"} ==> !r
  {
    if role == "customer" then ownOrder && s == "CANCELED"
    else if role == "merchant" then storeOrder && s in ["CONFIRMED", "CANCELED", "READY_FOR_PICKUP"]
    else role == "admin"
  }

  /** `set_status`'s response: the lookup, then the required status, then the role table. */
  function SetStatusDecision(o: Option<Order>, s: Option<string>, role: string, ownOrder: bool, storeOrder: bool): (r: SetStatusOutcome)
    ensures r == StatusSet <==> o.Some? && s.Some? && s.value != "" && MaySetStatus(role, ownOrder, storeOrder, s.value)
  {
    if o.None? then SetNotFound
    else if s.None? || s.value == "" then StatusRequired
    else if !MaySetStatus(role, ownOrder, storeOrder, s.value) then SetForbidden
    else StatusSet
  }

  /** Stock goes back only when cancelling an order that had not passed the kitchen. */
  predicate SetStatusRestocks(prior: Status, s: string)
  {
    s == "CANCELED" && BeforeKitchen(prior)
  }

  /** A customer may cancel their own order whatever its status, a
    * delivered one included; cancelling past the kitchen gives no stock back. */
  lemma CustomerCancelsAnyStatus(o: Order, user: int)
    requires o.customer == user
    ensures SetStatusDecision(Some(o), Some("CANCELED"), "customer", true, false) == StatusSet
    ensures !BeforeKitchen(o.status) ==> !SetStatusRestocks(o.status, "CANCELED")
  {
  }

  /** Setting CANCELED twice restocks at most once. */
  lemma SetStatusRestocksOnce()
    ensures !SetStatusRestocks(ParseStatus("CANCELED"), "CANCELED")
  {
  }

  // ---------------------------------------------------------------------
  // pickup and complete
  // ---------------------------------------------------------------------

  datatype PickupOutcome = PickupNotFound | PickupBadStatus(status: Status) | AlreadyYours | AlreadyTaken | PickupDone

  /** `pickup`: READY_FOR_PICKUP or PENDING, and nobody holds the order yet. */
  function PickupDecision(o: Option<Order>, user: int): (r: PickupOutcome)
    ensures r == PickupDone <==> o.Some? && o.value.status in {ReadyForPickup, Pending} && o.value.shipper.None?
    ensures r == AlreadyTaken ==> o.Some? && o.value.shipper.Some? && o.value.shipper.value != user
  {
    if o.None? then PickupNotFound
    else if o.value.status != ReadyForPickup && o.value.status != Pending then PickupBadStatus(o.value.status)
    else if o.value.shipper.Some? then (if o.value.shipper.value == user then AlreadyYours else AlreadyTaken)
    else PickupDone
  }

  function PickedUpOrder(o: Order, user: int): (r: Order)
    ensures r.shipper == Some(user) && r.status == Delivering
    ensures r == o.(shipper := r.shipper, status := r.status)
  {
    o.(shipper := Some(user), status := Delivering)
  }

  datatype CompleteOutcome = CompleteNotFound | CompleteBadStatus(status: Status) | CompleteDone

  /** `complete`: the caller's own order (anyone else gets 404), and only while DELIVERING. */
  function CompleteDecision(o: Option<Order>, user: int): (r: CompleteOutcome)
    ensures r == CompleteDone <==> o.Some? && o.value.shipper == Some(user) && o.value.status == Delivering
  {
    if o.None? || o.value.shipper != Some(user) then CompleteNotFound
    else if o.value.status != Delivering then CompleteBadStatus(o.value.status)
    else CompleteDone
  }

  function CompletedOrder(o: Order): (r: Order)
    ensures r.status == Delivered && r == o.(status := Delivered)
  {
    o.(status := Delivered)
  }

  /** After a pickup, the shipper who took the order can complete it, anybody
    * else gets 404, and a second pickup by anyone is refused with 400. */
  lemma PickupThenComplete(o: Order, user: int, other: int)
    requires PickupDecision(Some(o), user) == PickupDone && other != user
    ensures CompleteDecision(Some(PickedUpOrder(o, user)), user) == CompleteDone
    ensures CompleteDecision(Some(PickedUpOrder(o, user)), other) == CompleteNotFound
    ensures PickupDecision(Some(PickedUpOrder(o, user)), other) == PickupBadStatus(Delivering)
    ensures PickupDecision(Some(PickedUpOrder(o, user)), user) == PickupBadStatus(Delivering)
    ensures CompletedOrder(PickedUpOrder(o, user)).status == Delivered
  {
  }

  /** Every order a shipper sees as available can be picked up. */
  lemma AvailableCanBePickedUp(o: Order, user: int)
    requires IsAvailableForShipper(o)
    ensures PickupDecision(Some(o), user) == PickupDone
  {
  }

  // ---------------------------------------------------------------------
  // adjust_stock
  // ---------------------------------------------------------------------

  function Abs(x: int): (r: nat)
    ensures r == x || r == -x
  {
    if x < 0 then -x else x
  }

  function Max(a: int, b: int): (r: int)
    ensures r >= a && r >= b && (r == a || r == b)
  {
    if a >= b then a else b
  }

  /** The new stock: IN adds |q|, OUT takes |q| without going below zero,
    * any other type sets q, floored at zero. */
  function AdjustedStock(stock: int, q: int, kind: string): int
  {
    if kind == "IN" then stock + Abs(q)
    else if kind == "OUT" then Max(0, stock - Abs(q))
    else Max(0, q)
  }

  /** Only IN can leave stock negative, and only if it was already negative;
    * OUT never raises stock, IN never lowers it, and ADJUST ignores it. */
  lemma AdjustedStockBounds(stock: int, q: int, kind: string)
    ensures kind != "IN" ==> AdjustedStock(stock, q, kind) >= 0
    ensures kind == "IN" ==> AdjustedStock(stock, q, kind) >= stock
    ensures kind == "OUT" && stock >= 0 ==> AdjustedStock(stock, q, kind) <= stock
    ensures kind !in {"IN", "OUT"} ==> forall s :: AdjustedStock(s, q, kind) == AdjustedStock(stock, q, kind)
  {
  }

  /** OUT undoes IN on a non-negative stock, and IN undoes OUT when there
    * was enough stock to take from. */
  lemma AdjustInOut(stock: int, q: int)
    ensures stock >= 0 ==> AdjustedStock(AdjustedStock(stock, q, "IN"), q, "OUT") == stock
    ensures stock >= Abs(q) ==> AdjustedStock(AdjustedStock(stock, q, "OUT"), q, "IN") == stock
  {
  }

  datatype AdjustOutcome = AdjustForbidden | AdjustNotFound | AdjustCrash | AdjustDone(stock: int)

  // ---------------------------------------------------------------------
  // handle_out_of_stock
  // ---------------------------------------------------------------------

  datatype Substitution = Substitution(orderItemId: Option<int>, newMenuItemId: Option<int>)
  datatype Reduction = Reduction(orderItemId: Option<int>, newQuantity: IntField)

  /** The request body: `action`, `substitutions` and `reductions`. */
  datatype OutOfStockRequest = OutOfStockRequest(action: Option<string>, substitutions: seq<Substitution>, reductions: seq<Reduction>)

  /** The position of the line with primary key `id` among the order's lines. */
  function LineIndex(lines: seq<OrderItem>, id: Option<int>): (r: Option<nat>)
    ensures r.Some? ==> r.value < |lines| && Some(lines[r.value].id) == id
    ensures r.None? ==> forall i :: 0 <= i < |lines| ==> Some(lines[i].id) != id
    decreases |lines|
  {
    if |lines| == 0 then None
    else if Some(lines[0].id) == id then Some(0)
    else match LineIndex(lines[1..], id)
      case None => None
      case Some(k) => Some(k + 1)
  }

  /** One substitution: the line now points at the new dish, with its name
    * and current price, and its total is recomputed; an unknown line or
    * dish is skipped. The new dish may belong to any store. */
  function SubstituteLine(lines: seq<OrderItem>, items: map<int, MenuItem>, sub: Substitution): (r: seq<OrderItem>)
    ensures |r| == |lines|
  {
    var k := LineIndex(lines, sub.orderItemId);
    if k.None? || sub.newMenuItemId.None? || sub.newMenuItemId.value !in items then lines
    else
      var m := items[sub.newMenuItemId.value];
      var l := lines[k.value];
      lines[k.value := l.(menuItem := sub.newMenuItemId, name := m.name, price := m.price, lineTotal := m.price * l.quantity)]
  }

  function SubstituteAll(lines: seq<OrderItem>, items: map<int, MenuItem>, subs: seq<Substitution>): seq<OrderItem>
    decreases |subs|
  {
    if |subs| == 0 then lines else SubstituteAll(SubstituteLine(lines, items, subs[0]), items, subs[1..])
  }

  /** One reduction: `int(new_quantity)` (default 1) raising aborts the
    * request; otherwise the line gets quantity max(1, n) and a recomputed
    * total, and an unknown line is skipped. */
  function ReduceLine(lines: seq<OrderItem>, red: Reduction): (r: Option<seq<OrderItem>>)
    ensures r.None? <==> red.newQuantity.IntInvalid?
    ensures r.Some? ==> |r.value| == |lines|
  {
    match IntOr(red.newQuantity, 1)
    case None => None
    case Some(n) =>
      var k := LineIndex(lines, red.orderItemId);
      if k.None? then Some(lines)
      else
        var l := lines[k.value];
        var q := Max(1, n);
        Some(lines[k.value := l.(quantity := q, lineTotal := l.price * q)])
  }

  function ReduceAll(lines: seq<OrderItem>, reds: seq<Reduction>): Option<seq<OrderItem>>
    decreases |reds|
  {
    if |reds| == 0 then Some(lines)
    else match ReduceLine(lines, reds[0])
      case None => None
      case Some(l) => ReduceAll(l, reds[1..])
  }

  datatype OutOfStockOutcome = OutOfStockCrash | OutOfStockCancelled(o: Order) | OutOfStockRepriced(o: Order)

  /** What `handle_out_of_stock` does to an order it may act on. CANCEL
    * cancels (refunding a paid order) without touching stock; every other
    * action, an unknown one included, ends by setting the total to the sum
    * of the line totals. */
  function HandleOutOfStockOf(o: Order, items: map<int, MenuItem>, req: OutOfStockRequest): OutOfStockOutcome
  {
    if req.action == Some("CANCEL") then OutOfStockCancelled(CancelledOrder(o))
    else if req.action == Some("SUBSTITUTE") then
      var lines := SubstituteAll(o.items, items, req.substitutions);
      OutOfStockRepriced(o.(items := lines, total := SumLineTotals(lines)))
    else if req.action == Some("REDUCE") then
      match ReduceAll(o.items, req.reductions)
      case None => OutOfStockCrash
      case Some(lines) => OutOfStockRepriced(o.(items := lines, total := SumLineTotals(lines)))
    else OutOfStockRepriced(o.(total := SumLineTotals(o.items)))
  }

  /** A substitution keeps every line's total equal to its price times its quantity. */
  lemma {:induction false} SubstituteAllConsistent(lines: seq<OrderItem>, items: map<int, MenuItem>, subs: seq<Substitution>)
    requires LinesConsistent(lines)
    ensures LinesConsistent(SubstituteAll(lines, items, subs))
    ensures |SubstituteAll(lines, items, subs)| == |lines|
    ensures forall i :: 0 <= i < |lines| ==> SubstituteAll(lines, items, subs)[i].quantity == lines[i].quantity
    decreases |subs|
  {
    if |subs| > 0 {
      SubstituteAllConsistent(SubstituteLine(lines, items, subs[0]), items, subs[1..]);
    }
  }

  /** A reduction keeps every line's total equal to its price times its
    * quantity, and a positive quantity stays positive. */
  lemma {:induction false} ReduceAllConsistent(lines: seq<OrderItem>, reds: seq<Reduction>)
    requires LinesConsistent(lines)
    requires ReduceAll(lines, reds).Some?
    ensures LinesConsistent(ReduceAll(lines, reds).value)
    ensures |ReduceAll(lines, reds).value| == |lines|
    ensures (forall i :: 0 <= i < |lines| ==> lines[i].quantity >= 1) ==>
      forall i :: 0 <= i < |lines| ==> ReduceAll(lines, reds).value[i].quantity >= 1
    decreases |reds|
  {
    if |reds| > 0 {
      ReduceAllConsistent(ReduceLine(lines, reds[0]).value, reds[1..]);
    }
  }

  /** Reductions abort the request exactly when one of them carries a
    * quantity `int()` rejects, whatever line it names. */
  lemma {:induction false} ReduceAllCrash(lines: seq<OrderItem>, reds: seq<Reduction>)
    ensures ReduceAll(lines, reds).None? <==> exists i :: 0 <= i < |reds| && reds[i].newQuantity.IntInvalid?
    decreases |reds|
  {
    if |reds| > 0 && ReduceLine(lines, reds[0]).Some? {
      ReduceAllCrash(ReduceLine(lines, reds[0]).value, reds[1..]);
      if exists i :: 0 <= i < |reds| && reds[i].newQuantity.IntInvalid? {
        var i :| 0 <= i < |reds| && reds[i].newQuantity.IntInvalid?;
        assert reds[1..][i - 1] == reds[i];
      }
      if exists i :: 0 <= i < |reds[1..]| && reds[1..][i].newQuantity.IntInvalid? {
        var i :| 0 <= i < |reds[1..]| && reds[1..][i].newQuantity.IntInvalid?;
        assert reds[i + 1] == reds[1..][i];
      }
    }
  }

  /** After any action but CANCEL, the order's total is the sum of price
    * times quantity over its lines, provided the lines were consistent
    * before (as checkout leaves them); the number of lines and, for
    * SUBSTITUTE, their quantities do not change. */
  lemma OutOfStockReprices(o: Order, items: map<int, MenuItem>, req: OutOfStockRequest)
    requires LinesConsistent(o.items)
    requires HandleOutOfStockOf(o, items, req).OutOfStockRepriced?
    ensures var o' := HandleOutOfStockOf(o, items, req).o;
      && o'.total == SumPriceTimesQty(o'.items)
      && LinesConsistent(o'.items)
      && |o'.items| == |o.items|
      && o' == o.(items := o'.items, total := o'.total)
  {
    var o' := HandleOutOfStockOf(o, items, req).o;
    if req.action == Some("SUBSTITUTE") {
      SubstituteAllConsistent(o.items, items, req.substitutions);
    } else if req.action == Some("REDUCE") {
      ReduceAllConsistent(o.items, req.reductions);
    }
    SumsAgree(o'.items);
  }

  /** CANCEL for lack of stock leaves the order CANCELED without giving
    * stock back, and the customer's own cancel is then refused, so the
    * stock that checkout took stays taken. */
  lemma OutOfStockCancelKeepsStockTaken(o: Order, items: map<int, MenuItem>, req: OutOfStockRequest, user: int)
    requires req.action == Some("CANCEL")
    ensures HandleOutOfStockOf(o, items, req).OutOfStockCancelled?
    ensures var o' := HandleOutOfStockOf(o, items, req).o;
      o'.status == Canceled && o'.items == o.items && CancelDecision(Some(o'), user) != CancelDone
  {
  }

  // ---------------------------------------------------------------------
  // refund
  // ---------------------------------------------------------------------

  /** The `amount` field: absent (or null), a number, or text `Decimal` rejects. */
  datatype Amount = NoAmount | AmountGiven(v: int) | AmountInvalid

  /** The amount refunded: the whole total by default, and never more than it. */
  function RefundAmount(total: int, a: Amount): (r: int)
    requires !a.AmountInvalid?
    ensures r <= total
    ensures a.NoAmount? ==> r == total
    ensures a.AmountGiven? ==> r == (if a.v <= total then a.v else total)
  {
    if a.NoAmount? then total else if a.v > total then total else a.v
  }

  datatype RefundOutcome = RefundForbidden | RefundNotFound | RefundNotPaid | RefundCrash | RefundDone(amount: int)

  /** The decision of `refund` on an order the caller may act on. */
  function RefundDecision(o: Order, a: Amount): (r: RefundOutcome)
    ensures r.RefundDone? <==> o.payment == Paid && !a.AmountInvalid?
    ensures r.RefundDone? ==> r.amount <= o.total
  {
    if o.payment != Paid then RefundNotPaid
    else if a.AmountInvalid? then RefundCrash
    else RefundDone(RefundAmount(o.total, a))
  }

  /** A partial refund marks the order REFUNDED like a full one, so a
    * second refund of the rest is refused. */
  lemma RefundOnce(o: Order, a: Amount, b: Amount)
    requires RefundDecision(o, a).RefundDone?
    ensures RefundDecision(o.(payment := Refunded), b) == RefundNotPaid
  {
  }

  // ---------------------------------------------------------------------
  // The shipper's order list
  // ---------------------------------------------------------------------

  datatype Coords = Coords(lat: real, lng: real)

  /** Where the shipper is: unknown, given but not a number, or known. */
  datatype ShipperPos = NoPos | BadPos | Known(c: Coords)

  /** The caller's profile, as far as the list consults it. */
  datatype ShipperProfile = ShipperProfile(role: string, lat: Option<real>, lng: Option<real>)

  /** The query's `lat`/`lng` when both are non-empty, else a shipper
    * profile's stored position when both of its coordinates are non-zero. */
  function ResolveShipperPos(qlat: Param, qlng: Param, profile: Option<ShipperProfile>): (r: ShipperPos)
    ensures Given(qlat) && Given(qlng) ==> (r.Known? <==> qlat.Numeric? && qlng.Numeric?)
    ensures Given(qlat) && Given(qlng) && r.Known? ==> r.c == Coords(qlat.v, qlng.v)
    ensures r.NoPos? <==> (!(Given(qlat) && Given(qlng)) &&
      !(profile.Some? && profile.value.role == "shipper" && Truthy(profile.value.lat) && Truthy(profile.value.lng)))
  {
    if Given(qlat) && Given(qlng) then
      (if qlat.Numeric? && qlng.Numeric? then Known(Coords(qlat.v, qlng.v)) else BadPos)
    else if profile.Some? && profile.value.role == "shipper" && Truthy(profile.value.lat) && Truthy(profile.value.lng) then
      Known(Coords(profile.value.lat.value, profile.value.lng.value))
    else NoPos
  }

  /** One entry of the list: an order and its distance to the store, if computed. */
  datatype Listed = Listed(orderId: int, distance: Option<real>)

  /** An order waiting for a shipper: READY_FOR_PICKUP or PENDING, unclaimed. */
  predicate Waiting(o: Order)
  {
    (o.status == ReadyForPickup || o.status == Pending) && o.shipper.None?
  }

  /** The store's coordinates when both are non-zero. */
  function StoreCoords(merchants: map<int, Merchant>, m: int): Option<Coords>
  {
    if m in merchants && Truthy(merchants[m].lat) && Truthy(merchants[m].lng)
    then Some(Coords(merchants[m].lat.value, merchants[m].lng.value))
    else None
  }

  /** An order the list loop keeps: there is no shipper position or no
    * store position to compare, or the shipper's position is numeric and
    * the store lies within the radius. */
  predicate InReach(o: Order, merchants: map<int, Merchant>, pos: ShipperPos, radius: real,
                    dist: (Coords, Coords) -> real)
  {
    var sc := StoreCoords(merchants, o.merchant);
    pos.NoPos? || sc.None? || (pos.Known? && dist(pos.c, sc.value) <= radius)
  }

  /** The list loop's decision for one order: no entry, or an entry. A
    * distance is computed only when both positions are known; an order
    * farther than the radius, or whose distance cannot be computed
    * because the shipper's coordinates are not numbers, is left out; an
    * order without both positions is listed with no distance. */
  function ListEntry(o: Order, id: int, merchants: map<int, Merchant>, pos: ShipperPos, radius: real,
                     dist: (Coords, Coords) -> real): (r: Option<Listed>)
    ensures r.Some? <==> InReach(o, merchants, pos, radius, dist)
    ensures r.Some? ==> r.value.orderId == id
    ensures r.Some? ==> (r.value.distance.None? <==> pos.NoPos? || StoreCoords(merchants, o.merchant).None?)
    ensures r.Some? && r.value.distance.Some? ==>
      pos.Known? && StoreCoords(merchants, o.merchant).Some?
      && r.value.distance.value == dist(pos.c, StoreCoords(merchants, o.merchant).value) <= radius
  {
    var sc := StoreCoords(merchants, o.merchant);
    if !pos.NoPos? && sc.Some? then
      if pos.BadPos? then None
      else if dist(pos.c, sc.value) <= radius then Some(Listed(id, Some(dist(pos.c, sc.value))))
      else None
    else Some(Listed(id, None))
  }

  /** The entries before sorting, in the query's newest-first order `queue`. */
  function Candidates(orders: map<int, Order>, merchants: map<int, Merchant>, queue: seq<int>, pos: ShipperPos,
                      radius: real, dist: (Coords, Coords) -> real): (r: seq<Listed>)
    ensures forall e :: e in r ==> e.orderId in queue && e.orderId in orders && Waiting(orders[e.orderId])
    ensures forall e :: e in r && e.distance.Some? ==> e.distance.value <= radius
    decreases |queue|
  {
    if |queue| == 0 then []
    else
      var here := QueueEntry(orders, merchants, queue[0], pos, radius, dist);
      (if here.Some? then [here.value] else []) + Candidates(orders, merchants, queue[1..], pos, radius, dist)
  }

  /** The candidates from position `i` on: the entry for `queue[i]`, if
    * any, then the candidates after it. */
  lemma CandidatesFrom(orders: map<int, Order>, merchants: map<int, Merchant>, queue: seq<int>, i: int, pos: ShipperPos,
                       radius: real, dist: (Coords, Coords) -> real)
    requires 0 <= i < |queue|
    ensures var here := QueueEntry(orders, merchants, queue[i], pos, radius, dist);
      Candidates(orders, merchants, queue[i..], pos, radius, dist)
        == (if here.Some? then [here.value] else []) + Candidates(orders, merchants, queue[i + 1..], pos, radius, dist)
  {
    assert queue[i..][1..] == queue[i + 1..];
  }

  /** One step of collecting the candidates left to right. */
  function AppendCandidate(acc: seq<Listed>, head: seq<Listed>, orders: map<int, Order>, merchants: map<int, Merchant>,
                           queue: seq<int>, i: int, pos: ShipperPos, radius: real, dist: (Coords, Coords) -> real): (r: seq<Listed>)
    requires 0 <= i < |queue|
    requires var here := QueueEntry(orders, merchants, queue[i], pos, radius, dist);
      head == if here.Some? then [here.value] else []
    ensures r + Candidates(orders, merchants, queue[i + 1..], pos, radius, dist)
         == acc + Candidates(orders, merchants, queue[i..], pos, radius, dist)
  {
    CandidatesFrom(orders, merchants, queue, i, pos, radius, dist);
    var rest := Candidates(orders, merchants, queue[i + 1..], pos, radius, dist);
    assert acc + (head + rest) == (acc + head) + rest;
    acc + head
  }

  /** The loop's decision for the order with id `id`: only waiting orders are considered. */
  function QueueEntry(orders: map<int, Order>, merchants: map<int, Merchant>, id: int, pos: ShipperPos,
                      radius: real, dist: (Coords, Coords) -> real): (r: Option<Listed>)
    ensures r.Some? <==> id in orders && Waiting(orders[id]) && InReach(orders[id], merchants, pos, radius, dist)
    ensures r.Some? ==> r.value.orderId == id
    ensures r.Some? && r.value.distance.Some? ==> r.value.distance.value <= radius
  {
    if id in orders && Waiting(orders[id]) then ListEntry(orders[id], id, merchants, pos, radius, dist) else None
  }

  function DistanceKey(e: Listed): Ext
  {
    if e.distance.None? then Inf else Fin(e.distance.value)
  }

  /** The list as returned: the candidates sorted by distance, missing distances last. */
  function ShipperOrders(orders: map<int, Order>, merchants: map<int, Merchant>, queue: seq<int>, pos: ShipperPos,
                         radius: real, dist: (Coords, Coords) -> real): seq<Listed>
  {
    SortBy(Candidates(orders, merchants, queue, pos, radius, dist), DistanceKey)
  }

  /** The list holds waiting orders only, within the radius when a distance
    * was computed; nearer orders come first, orders without a distance
    * come after every order with one, and orders at equal distance keep
    * the newest-first order. */
  lemma ShipperOrdersFacts(orders: map<int, Order>, merchants: map<int, Merchant>, queue: seq<int>, pos: ShipperPos,
                           radius: real, dist: (Coords, Coords) -> real)
    ensures var r := ShipperOrders(orders, merchants, queue, pos, radius, dist);
      forall e :: e in r ==> e.orderId in orders && Waiting(orders[e.orderId])
    ensures var r := ShipperOrders(orders, merchants, queue, pos, radius, dist);
      forall e :: e in r && e.distance.Some? ==> e.distance.value <= radius
    ensures var r := ShipperOrders(orders, merchants, queue, pos, radius, dist);
      forall i, j :: 0 <= i < j < |r| && r[i].distance.Some? && r[j].distance.Some? ==> r[i].distance.value <= r[j].distance.value
    ensures var r := ShipperOrders(orders, merchants, queue, pos, radius, dist);
      forall i, j :: 0 <= i < j < |r| && r[i].distance.None? ==> r[j].distance.None?
    ensures var r := ShipperOrders(orders, merchants, queue, pos, radius, dist);
      forall k :: WithKey(r, DistanceKey, k) == WithKey(Candidates(orders, merchants, queue, pos, radius, dist), DistanceKey, k)
  {
    var c := Candidates(orders, merchants, queue, pos, radius, dist);
    var r := ShipperOrders(orders, merchants, queue, pos, radius, dist);
    SortByFacts(c, DistanceKey);
    forall e | e in r ensures e in c {
      SortByMembers(c, DistanceKey, e);
    }
    forall i, j | 0 <= i < j < |r| && r[i].distance.None?
      ensures r[j].distance.None?
    {
      assert Le(DistanceKey(r[i]), DistanceKey(r[j]));
    }
  }

  /** Which entries the list holds, before the sort: an order has an entry
    * exactly when it is in `queue` and the loop keeps it, and every entry
    * is the loop's entry for its order. */
  lemma {:induction false} CandidatesEntries(orders: map<int, Order>, merchants: map<int, Merchant>, queue: seq<int>,
                                             pos: ShipperPos, radius: real, dist: (Coords, Coords) -> real, id: int)
    ensures (exists e :: e in Candidates(orders, merchants, queue, pos, radius, dist) && e.orderId == id)
        <==> id in queue && QueueEntry(orders, merchants, id, pos, radius, dist).Some?
    ensures forall e :: e in Candidates(orders, merchants, queue, pos, radius, dist) ==>
      QueueEntry(orders, merchants, e.orderId, pos, radius, dist) == Some(e)
    decreases |queue|
  {
    if |queue| > 0 {
      CandidatesEntries(orders, merchants, queue[1..], pos, radius, dist, id);
      var here := QueueEntry(orders, merchants, queue[0], pos, radius, dist);
      var rest := Candidates(orders, merchants, queue[1..], pos, radius, dist);
      var c := Candidates(orders, merchants, queue, pos, radius, dist);
      assert c == (if here.Some? then [here.value] else []) + rest;
      assert queue == [queue[0]] + queue[1..];
      if queue[0] == id && here.Some? {
        assert here.value in c;
      }
    }
  }

  /** The same after the sort: sorting neither adds nor drops an entry. */
  lemma ShipperListMembers(orders: map<int, Order>, merchants: map<int, Merchant>, queue: seq<int>,
                           pos: ShipperPos, radius: real, dist: (Coords, Coords) -> real, id: int)
    ensures (exists e :: e in ShipperOrders(orders, merchants, queue, pos, radius, dist) && e.orderId == id)
        <==> id in queue && QueueEntry(orders, merchants, id, pos, radius, dist).Some?
    ensures forall e :: e in ShipperOrders(orders, merchants, queue, pos, radius, dist) ==>
      QueueEntry(orders, merchants, e.orderId, pos, radius, dist) == Some(e)
  {
    var c := Candidates(orders, merchants, queue, pos, radius, dist);
    CandidatesEntries(orders, merchants, queue, pos, radius, dist, id);
    forall e ensures e in ShipperOrders(orders, merchants, queue, pos, radius, dist) <==> e in c {
      SortByMembers(c, DistanceKey, e);
    }
  }

  /** Ids in newest-first order of `created_at`. */
  ghost predicate NewestFirstIds(orders: map<int, Order>, ids: seq<int>)
  {
    forall i, j :: 0 <= i < j < |ids| ==>
      ids[i] in orders && ids[j] in orders && orders[ids[i]].createdAt >= orders[ids[j]].createdAt
  }

  /** Entries whose orders are in newest-first order of `created_at`. */
  ghost predicate NewestFirst(orders: map<int, Order>, s: seq<Listed>)
  {
    forall i, j :: 0 <= i < j < |s| ==>
      s[i].orderId in orders && s[j].orderId in orders
      && orders[s[i].orderId].createdAt >= orders[s[j].orderId].createdAt
  }

  /** No order is listed twice. */
  ghost predicate DistinctIds(s: seq<Listed>)
  {
    forall i, j :: 0 <= i < j < |s| ==> s[i].orderId != s[j].orderId
  }

  /** What the list query hands the loop: every waiting order of the table
    * once, and nothing else, newest first. */
  ghost predicate WaitingQueue(orders: map<int, Order>, queue: seq<int>)
  {
    && (forall id :: id in queue <==> id in orders && Waiting(orders[id]))
    && (forall i, j :: 0 <= i < j < |queue| ==> queue[i] != queue[j])
    && NewestFirstIds(orders, queue)
  }

  /** The query's order, less its newest row. */
  lemma QueueTail(orders: map<int, Order>, queue: seq<int>)
    requires |queue| > 0
    requires forall i, j :: 0 <= i < j < |queue| ==> queue[i] != queue[j]
    requires NewestFirstIds(orders, queue)
    ensures forall i, j :: 0 <= i < j < |queue[1..]| ==> queue[1..][i] != queue[1..][j]
    ensures NewestFirstIds(orders, queue[1..])
    ensures forall id :: id in queue[1..] ==> id != queue[0] && id in orders && orders[queue[0]].createdAt >= orders[id].createdAt
  {
    forall i, j | 0 <= i < j < |queue[1..]|
      ensures queue[1..][i] != queue[1..][j]
      ensures queue[1..][i] in orders && queue[1..][j] in orders
      ensures orders[queue[1..][i]].createdAt >= orders[queue[1..][j]].createdAt
    {
      assert queue[1..][i] == queue[i + 1] && queue[1..][j] == queue[j + 1];
    }
    forall id | id in queue[1..] ensures id != queue[0] && id in orders && orders[queue[0]].createdAt >= orders[id].createdAt {
      var k :| 0 <= k < |queue[1..]| && queue[1..][k] == id;
      assert queue[k + 1] == id;
    }
  }

  /** An entry put in front of entries no newer than it keeps the list newest first. */
  lemma ConsNewest(orders: map<int, Order>, x: Listed, rest: seq<Listed>)
    requires NewestFirst(orders, rest)
    requires forall e :: e in rest ==> x.orderId in orders && e.orderId in orders && orders[x.orderId].createdAt >= orders[e.orderId].createdAt
    ensures NewestFirst(orders, [x] + rest)
  {
    var c := [x] + rest;
    forall i, j | 0 <= i < j < |c|
      ensures c[i].orderId in orders && c[j].orderId in orders
        && orders[c[i].orderId].createdAt >= orders[c[j].orderId].createdAt
    {
      var e := rest[j - 1];
      assert c[j] == e && e in rest;
      if i == 0 {
        assert c[0] == x;
      } else {
        var d := rest[i - 1];
        assert c[i] == d;
        assert d.orderId in orders && orders[d.orderId].createdAt >= orders[e.orderId].createdAt;
      }
    }
  }

  /** An entry put in front of distinct entries for other orders keeps the ids distinct. */
  lemma ConsDistinct(x: Listed, rest: seq<Listed>)
    requires DistinctIds(rest)
    requires forall e :: e in rest ==> e.orderId != x.orderId
    ensures DistinctIds([x] + rest)
  {
    var c := [x] + rest;
    forall i, j | 0 <= i < j < |c| ensures c[i].orderId != c[j].orderId {
      assert c[j] == rest[j - 1] && c[j] in rest;
      if i > 0 {
        assert c[i] == rest[i - 1];
      }
    }
  }

  /** A newest-first list, less its first entry, and that entry against the rest. */
  lemma NewestTail(orders: map<int, Order>, s: seq<Listed>)
    requires |s| > 0 && NewestFirst(orders, s)
    ensures NewestFirst(orders, s[1..])
    ensures forall e :: e in s[1..] ==>
      (s[0].orderId in orders && e.orderId in orders && orders[s[0].orderId].createdAt >= orders[e.orderId].createdAt)
  {
    forall i, j | 0 <= i < j < |s[1..]|
      ensures s[1..][i].orderId in orders && s[1..][j].orderId in orders
      ensures orders[s[1..][i].orderId].createdAt >= orders[s[1..][j].orderId].createdAt
    {
      assert s[1..][i] == s[i + 1] && s[1..][j] == s[j + 1];
    }
    forall e | e in s[1..]
      ensures s[0].orderId in orders && e.orderId in orders
      ensures orders[s[0].orderId].createdAt >= orders[e.orderId].createdAt
    {
      var m :| 0 <= m < |s[1..]| && s[1..][m] == e;
      assert s[m + 1] == e;
    }
  }

  /** The loop keeps the query's order and lists each order at most once. */
  lemma {:induction false} CandidatesInQueueOrder(orders: map<int, Order>, merchants: map<int, Merchant>, queue: seq<int>,
                                                  pos: ShipperPos, radius: real, dist: (Coords, Coords) -> real)
    requires forall i, j :: 0 <= i < j < |queue| ==> queue[i] != queue[j]
    requires NewestFirstIds(orders, queue)
    ensures DistinctIds(Candidates(orders, merchants, queue, pos, radius, dist))
    ensures NewestFirst(orders, Candidates(orders, merchants, queue, pos, radius, dist))
    decreases |queue|
  {
    if |queue| > 0 {
      QueueTail(orders, queue);
      CandidatesInQueueOrder(orders, merchants, queue[1..], pos, radius, dist);
      var here := QueueEntry(orders, merchants, queue[0], pos, radius, dist);
      if here.Some? {
        var rest := Candidates(orders, merchants, queue[1..], pos, radius, dist);
        ConsNewest(orders, here.value, rest);
        ConsDistinct(here.value, rest);
      }
    }
  }

  /** Picking the entries with one key keeps their newest-first order. */
  lemma {:induction false} WithKeyNewestFirst(orders: map<int, Order>, s: seq<Listed>, key: Listed -> Ext, k: Ext)
    requires NewestFirst(orders, s)
    ensures NewestFirst(orders, WithKey(s, key, k))
    ensures forall x :: x in WithKey(s, key, k) ==> x in s
    decreases |s|
  {
    if |s| > 0 {
      NewestTail(orders, s);
      WithKeyNewestFirst(orders, s[1..], key, k);
      if key(s[0]) == k {
        forall e | e in WithKey(s[1..], key, k)
          ensures s[0].orderId in orders && e.orderId in orders && orders[s[0].orderId].createdAt >= orders[e.orderId].createdAt
        {
          assert e in s[1..];
        }
        ConsNewest(orders, s[0], WithKey(s[1..], key, k));
      }
    }
  }

  /** An entry held at two places is counted twice. */
  lemma CountedTwice(s: seq<Listed>, i: int, j: int)
    requires 0 <= i < j < |s| && s[i] == s[j]
    ensures multiset(s)[s[i]] >= 2
  {
    assert s == s[..j] + s[j..];
    assert s[i] == s[..j][i];
    assert s[j] == s[j..][0];
  }

  /** Without repeated ids no entry is counted twice. */
  lemma {:induction false} CountedOnce(s: seq<Listed>, x: Listed)
    requires DistinctIds(s)
    ensures multiset(s)[x] <= 1
    decreases |s|
  {
    if |s| > 0 {
      assert s == [s[0]] + s[1..];
      CountedOnce(s[1..], x);
      if x == s[0] {
        forall m | 0 <= m < |s[1..]| ensures s[1..][m] != x {
          assert s[1..][m] == s[m + 1];
        }
      }
    }
  }

  /** Sorting entries with distinct ids, each the loop's entry for its order, keeps the ids distinct. */
  lemma SortedDistinct(orders: map<int, Order>, merchants: map<int, Merchant>, c: seq<Listed>,
                       pos: ShipperPos, radius: real, dist: (Coords, Coords) -> real)
    requires DistinctIds(c)
    requires forall e :: e in c ==> QueueEntry(orders, merchants, e.orderId, pos, radius, dist) == Some(e)
    ensures DistinctIds(SortBy(c, DistanceKey))
  {
    var r := SortBy(c, DistanceKey);
    SortByFacts(c, DistanceKey);
    forall i, j | 0 <= i < j < |r| ensures r[i].orderId != r[j].orderId {
      if r[i].orderId == r[j].orderId {
        SortByMembers(c, DistanceKey, r[i]);
        SortByMembers(c, DistanceKey, r[j]);
        assert r[i] == r[j];
        CountedTwice(r, i, j);
        CountedOnce(c, r[i]);
      }
    }
  }

  /** Over the whole table, given the query's rows: the list names exactly
    * the waiting orders the loop keeps, each once, and orders at equal
    * distance (or all without one) stay newest first. */
  lemma ShipperListTable(orders: map<int, Order>, merchants: map<int, Merchant>, queue: seq<int>,
                         pos: ShipperPos, radius: real, dist: (Coords, Coords) -> real)
    requires WaitingQueue(orders, queue)
    ensures forall id ::
      ((exists e :: e in ShipperOrders(orders, merchants, queue, pos, radius, dist) && e.orderId == id)
        <==> id in orders && Waiting(orders[id]) && InReach(orders[id], merchants, pos, radius, dist))
    ensures DistinctIds(ShipperOrders(orders, merchants, queue, pos, radius, dist))
    ensures forall k :: NewestFirst(orders, WithKey(ShipperOrders(orders, merchants, queue, pos, radius, dist), DistanceKey, k))
  {
    var c := Candidates(orders, merchants, queue, pos, radius, dist);
    var r := ShipperOrders(orders, merchants, queue, pos, radius, dist);
    forall id
      ensures (exists e :: e in r && e.orderId == id)
        <==> id in orders && Waiting(orders[id]) && InReach(orders[id], merchants, pos, radius, dist)
    {
      ShipperListMembers(orders, merchants, queue, pos, radius, dist, id);
    }
    CandidatesInQueueOrder(orders, merchants, queue, pos, radius, dist);
    CandidatesEntries(orders, merchants, queue, pos, radius, dist, 0);
    SortedDistinct(orders, merchants, c, pos, radius, dist);
    forall k ensures NewestFirst(orders, WithKey(r, DistanceKey, k)) {
      SortByFacts(c, DistanceKey);
      WithKeyNewestFirst(orders, c, DistanceKey, k);
    }
  }

  /** Without any shipper position, every waiting order of the table is
    * listed, without a distance. */
  lemma NoPositionListsAllWaiting(orders: map<int, Order>, merchants: map<int, Merchant>, queue: seq<int>,
                                  radius: real, dist: (Coords, Coords) -> real)
    requires WaitingQueue(orders, queue)
    ensures forall id :: id in orders && Waiting(orders[id]) ==>
      Listed(id, None) in ShipperOrders(orders, merchants, queue, NoPos, radius, dist)
  {
    var r := ShipperOrders(orders, merchants, queue, NoPos, radius, dist);
    forall id | id in orders && Waiting(orders[id]) ensures Listed(id, None) in r {
      ShipperListMembers(orders, merchants, queue, NoPos, radius, dist, id);
      var e :| e in r && e.orderId == id;
    }
  }
}
