// The order endpoints as methods over the tables they update in place:
// stores and their staff, dishes, and orders with their lines. Each
// method answers like its endpoint and leaves the tables exactly as the
// endpoint's transaction commits them (or as they were, when it rolls back).
module OrderEngine {
  import opened Wrappers
  import opened Params
  import opened Lists
  import opened MenuModel
  import opened OrderModel
  import opened Checkout
  import opened OrderRules

  class Marketplace {
    var merchants: map<int, Merchant>
    var members: Members
    var items: map<int, MenuItem>
    var orders: map<int, Order>
    /** The next primary keys the database hands out. */
    var nextOrderId: int
    var nextLineId: int

    ghost predicate Valid()
      reads this
    {
      && nextOrderId >= 1
      && (forall id :: id in orders ==> 1 <= id < nextOrderId)
    }

    constructor (merchants: map<int, Merchant>, members: Members, items: map<int, MenuItem>)
      ensures Valid()
      ensures this.merchants == merchants && this.members == members && this.items == items
      ensures orders == map[] && nextOrderId == 1 && nextLineId == 1
    {
      this.merchants := merchants;
      this.members := members;
      this.items := items;
      orders := map[];
      nextOrderId := 1;
      nextLineId := 1;
    }

    function Lookup(pk: int): (r: Option<Order>)
      reads this
      ensures r.Some? <==> pk in orders
      ensures r.Some? ==> r.value == orders[pk]
    {
      if pk in orders then Some(orders[pk]) else None
    }

    /** The order is one of the stores `user` owns or works for. */
    predicate OfMyStore(pk: int, user: int)
      reads this
    {
      pk in orders && orders[pk].merchant in UserMerchants(merchants, members, user)
    }

    /** The order row checkout commits. */
    static function PlacedOrder(user: int, merchant: int, address: string, note: string, now: int, p: Progress): (o: Order)
      ensures o.status == Pending && o.payment == Unpaid && o.shipper.None?
      ensures o.customer == user && o.merchant == merchant && o.items == p.lines && o.total == p.total
    {
      NewOrder(user, merchant, address, note, now).(total := p.total, items := p.lines)
    }

    // -------------------------------------------------------------------
    // create
    // -------------------------------------------------------------------

    /** `OrderViewSet.create`. The stock updates happen in place, row by row;
      * any refusal puts the dish table back as it was and stores no order. */
    method Create(user: int, role: string, merchantId: Option<int>, payload: Payload,
                  address: string, note: string, now: int) returns (out: CreateOutcome)
      requires Valid()
      modifies this
      ensures Valid()
      ensures merchants == old(merchants) && members == old(members)
      ensures var res := CheckoutResultOf(old(items), old(merchants), role, merchantId, payload, old(nextLineId));
        res.Refused? ==>
          && out == res.outcome
          && items == old(items) && orders == old(orders)
          && nextOrderId == old(nextOrderId) && nextLineId == old(nextLineId)
      ensures var res := CheckoutResultOf(old(items), old(merchants), role, merchantId, payload, old(nextLineId));
        res.Accepted? ==>
          && out == Created(old(nextOrderId))
          && items == res.p.items
          && orders == old(orders)[old(nextOrderId) := PlacedOrder(user, merchantId.value, address, note, now, res.p)]
          && nextOrderId == old(nextOrderId) + 1 && nextLineId == res.p.nextLineId
    {
      if role != "customer" && role != "admin" {
        return Forbidden;
      }
      if merchantId.None? || merchantId.value == 0 {
        return MissingMerchant;
      }
      if payload.NotAList? || |payload.rows| == 0 {
        return EmptyItems;
      }
      var mid := merchantId.value;
      if mid !in merchants || !merchants[mid].active {
        return MerchantNotFound;
      }
      var snapshot := items;
      var step := TakeBasket(mid, payload.rows);
      if step.Stop? {
        return if step.a.Crash? then ServerError else UnknownItem(step.a.id);
      }
      var p := step.p;
      if |p.errors| > 0 {
        items := snapshot;
        return StockErrors(p.errors);
      }
      orders := orders[nextOrderId := PlacedOrder(user, mid, address, note, now, p)];
      out := Created(nextOrderId);
      nextOrderId := nextOrderId + 1;
      nextLineId := p.nextLineId;
    }

    /** The basket loop: the dish table ends as the run over all rows leaves
      * it, or as it was when a row stops the request. */
    method TakeBasket(mid: int, rows: seq<Row>) returns (step: Step)
      modifies this
      ensures step == RunRows(Start(old(items), nextLineId), mid, rows)
      ensures items == (if step.Go? then step.p.items else old(items))
      ensures merchants == old(merchants) && members == old(members) && orders == old(orders)
      ensures nextOrderId == old(nextOrderId) && nextLineId == old(nextLineId)
    {
      var snapshot := items;
      var total, errors, lines, lineId := 0, [], [], nextLineId;
      var i := 0;
      while i < |rows|
        invariant 0 <= i <= |rows|
        invariant RunRows(Start(snapshot, nextLineId), mid, rows) == RunRows(Progress(items, total, errors, lines, lineId), mid, rows[i..])
        invariant snapshot == old(items)
        invariant merchants == old(merchants) && members == old(members) && orders == old(orders)
        invariant nextOrderId == old(nextOrderId) && nextLineId == old(nextLineId)
      {
        assert rows[i..][0] == rows[i] && rows[i..][1..] == rows[i + 1..];
        var stop;
        stop, total, errors, lines, lineId := TakeRow(mid, rows[i], total, errors, lines, lineId);
        if stop.Some? {
          items := snapshot;
          return Stop(stop.value);
        }
        i := i + 1;
      }
      step := Go(Progress(items, total, errors, lines, lineId));
    }

    /** A new active store under `id`, owned by `owner`, who is also its
      * "owner" member. */
    method OpenStore(id: int, owner: int, name: string, address: string, phone: string)
      modifies this
      ensures merchants == old(merchants)[id := Merchant(owner, name, address, phone, None, None, true)]
      ensures members == old(members)[(id, owner) := "owner"]
      ensures items == old(items) && orders == old(orders)
      ensures nextOrderId == old(nextOrderId) && nextLineId == old(nextLineId)
    {
      merchants := merchants[id := Merchant(owner, name, address, phone, None, None, true)];
      members := members[(id, owner) := "owner"];
    }

    /** One pass of the basket loop, on the dish table in place: the table
      * and the running values move as `CheckoutRow` says, or the row stops
      * the request (the caller rolls the table back). */
    method TakeRow(mid: int, row: Row, total: int, errors: seq<RowError>, lines: seq<OrderItem>, lineId: int)
      returns (stop: Option<Abort>, total': int, errors': seq<RowError>, lines': seq<OrderItem>, lineId': int)
      modifies this
      ensures var step := CheckoutRow(Progress(old(items), total, errors, lines, lineId), mid, row);
        && (step.Stop? <==> stop.Some?)
        && (step.Stop? ==> stop.value == step.a)
        && (step.Go? ==> step.p == Progress(items, total', errors', lines', lineId'))
      ensures merchants == old(merchants) && members == old(members) && orders == old(orders)
      ensures nextOrderId == old(nextOrderId) && nextLineId == old(nextLineId)
    {
      stop, total', errors', lines', lineId' := None, total, errors, lines, lineId;
      var q := IntOr(row.quantity, 1);
      if q.None? {
        return Some(Crash), total, errors, lines, lineId;
      }
      if row.menuItemId.None? || row.menuItemId.value == 0 {
        errors' := errors + [InvalidId];
        return;
      }
      var id := row.menuItemId.value;
      if id !in items || items[id].merchant != mid {
        return Some(UnknownDish(id)), total, errors, lines, lineId;
      }
      var m := items[id];
      var qty := q.value;
      if m.stock < qty {
        errors' := errors + [if m.stock <= 0 then SoldOut(m.name, m.stock) else NotEnough(m.name, m.stock, qty)];
        return;
      }
      if qty < 0 {
        // the line's quantity column refuses it: the request fails and rolls back
        return Some(Crash), total, errors, lines, lineId;
      }
      var left := m.stock - qty;
      items := items[id := m.(stock := left, available := left > 0)];
      total' := total + m.price * qty;
      lines' := lines + [OrderItem(lineId, Some(id), m.name, m.price, qty, m.price * qty)];
      lineId' := lineId + 1;
    }

    // -------------------------------------------------------------------
    // Giving stock back
    // -------------------------------------------------------------------

    /** The restock loop shared by `cancel`, `set_status` and the batch
      * restore script; it also counts the lines it acted on and their
      * quantities, as the script reports them. */
    method RestockLines(lines: seq<OrderItem>) returns (restored: nat, quantity: int)
      modifies this
      ensures items == Restock(old(items), lines)
      ensures restored == |Restorable(old(items), lines)|
      ensures quantity == TotalQuantity(Restorable(old(items), lines))
      ensures merchants == old(merchants) && members == old(members) && orders == old(orders)
      ensures nextOrderId == old(nextOrderId) && nextLineId == old(nextLineId)
    {
      restored, quantity := 0, 0;
      ghost var before := items;
      var i := 0;
      while i < |lines|
        invariant 0 <= i <= |lines|
        invariant Restock(items, lines[i..]) == Restock(before, lines)
        invariant items.Keys == before.Keys
        invariant restored + |Restorable(before, lines[i..])| == |Restorable(before, lines)|
        invariant quantity + TotalQuantity(Restorable(before, lines[i..])) == TotalQuantity(Restorable(before, lines))
        invariant merchants == old(merchants) && members == old(members) && orders == old(orders)
        invariant nextOrderId == old(nextOrderId) && nextLineId == old(nextLineId)
      {
        assert lines[i..][0] == lines[i] && lines[i..][1..] == lines[i + 1..];
        RestorableFrom(before, lines, i);
        var hit := RestockOne(lines[i]);
        if hit {
          restored := restored + 1;
          quantity := quantity + lines[i].quantity;
        }
        i := i + 1;
      }
    }

    /** One pass of the restock loop: the line's dish, when it still exists,
      * gets the quantity back. Reports whether it existed. */
    method RestockOne(line: OrderItem) returns (hit: bool)
      modifies this
      ensures hit == (line.menuItem.Some? && line.menuItem.value in old(items))
      ensures items == RestockLine(old(items), line)
      ensures items.Keys == old(items).Keys
      ensures merchants == old(merchants) && members == old(members) && orders == old(orders)
      ensures nextOrderId == old(nextOrderId) && nextLineId == old(nextLineId)
    {
      hit := line.menuItem.Some? && line.menuItem.value in items;
      if hit {
        var id := line.menuItem.value;
        var m := items[id];
        var s := m.stock + line.quantity;
        items := items[id := m.(stock := s, available := if s > 0 then true else m.available)];
      }
    }

    /** `OrderViewSet.cancel`. */
    method Cancel(pk: int, user: int) returns (out: CancelOutcome)
      requires Valid()
      modifies this
      ensures Valid()
      ensures merchants == old(merchants) && members == old(members)
      ensures nextOrderId == old(nextOrderId) && nextLineId == old(nextLineId)
      ensures out == CancelDecision(old(Lookup(pk)), user)
      ensures out != CancelDone ==> orders == old(orders) && items == old(items)
      ensures out == CancelDone ==>
        && orders == old(orders)[pk := CancelledOrder(old(orders)[pk])]
        && items == Restock(old(items), old(orders)[pk].items)
    {
      out := CancelDecision(Lookup(pk), user);
      if out != CancelDone {
        return;
      }
      var o := orders[pk];
      orders := orders[pk := CancelledOrder(o)];
      var _, _ := RestockLines(o.items);
    }

    /** `OrderViewSet.set_status`. */
    method SetStatus(pk: int, user: int, role: string, s: Option<string>) returns (out: SetStatusOutcome)
      requires Valid()
      modifies this
      ensures Valid()
      ensures merchants == old(merchants) && members == old(members)
      ensures nextOrderId == old(nextOrderId) && nextLineId == old(nextLineId)
      ensures out == SetStatusDecision(old(Lookup(pk)), s, role,
                                       pk in old(orders) && old(orders)[pk].customer == user, old(OfMyStore(pk, user)))
      ensures out != StatusSet ==> orders == old(orders) && items == old(items)
      ensures out == StatusSet ==>
        && orders == old(orders)[pk := old(orders)[pk].(status := ParseStatus(s.value))]
        && items == if SetStatusRestocks(old(orders)[pk].status, s.value)
                    then Restock(old(items), old(orders)[pk].items) else old(items)
    {
      out := SetStatusDecision(Lookup(pk), s, role, pk in orders && orders[pk].customer == user, OfMyStore(pk, user));
      if out != StatusSet {
        return;
      }
      var o := orders[pk];
      if SetStatusRestocks(o.status, s.value) {
        var _, _ := RestockLines(o.items);
      }
      orders := orders[pk := o.(status := ParseStatus(s.value))];
    }

    // -------------------------------------------------------------------
    // Shipper transitions
    // -------------------------------------------------------------------

    /** `ShipperViewSet.pickup`. */
    method Pickup(pk: int, user: int) returns (out: PickupOutcome)
      requires Valid()
      modifies this
      ensures Valid()
      ensures merchants == old(merchants) && members == old(members) && items == old(items)
      ensures nextOrderId == old(nextOrderId) && nextLineId == old(nextLineId)
      ensures out == PickupDecision(old(Lookup(pk)), user)
      ensures out != PickupDone ==> orders == old(orders)
      ensures out == PickupDone ==> orders == old(orders)[pk := PickedUpOrder(old(orders)[pk], user)]
    {
      out := PickupDecision(Lookup(pk), user);
      if out == PickupDone {
        orders := orders[pk := PickedUpOrder(orders[pk], user)];
      }
    }

    /** `ShipperViewSet.complete`. */
    method Complete(pk: int, user: int) returns (out: CompleteOutcome)
      requires Valid()
      modifies this
      ensures Valid()
      ensures merchants == old(merchants) && members == old(members) && items == old(items)
      ensures nextOrderId == old(nextOrderId) && nextLineId == old(nextLineId)
      ensures out == CompleteDecision(old(Lookup(pk)), user)
      ensures out != CompleteDone ==> orders == old(orders)
      ensures out == CompleteDone ==> orders == old(orders)[pk := CompletedOrder(old(orders)[pk])]
    {
      out := CompleteDecision(Lookup(pk), user);
      if out == CompleteDone {
        orders := orders[pk := CompletedOrder(orders[pk])];
      }
    }

    // -------------------------------------------------------------------
    // Merchant-side endpoints
    // -------------------------------------------------------------------

    /** `InventoryViewSet.adjust_stock`; `kind` is "ADJUST" when the request has no type.
      * Only the stock is written: availability is left as it was. */
    method AdjustStock(pk: int, user: int, role: string, quantity: IntField, kind: string) returns (out: AdjustOutcome)
      requires Valid()
      modifies this
      ensures Valid()
      ensures merchants == old(merchants) && members == old(members) && orders == old(orders)
      ensures nextOrderId == old(nextOrderId) && nextLineId == old(nextLineId)
      ensures var g := StaffGate(role, pk in old(items),
                                 pk in old(items) && old(items)[pk].merchant in UserMerchants(merchants, members, user));
        && (g == GateForbidden ==> out == AdjustForbidden)
        && (g == GateNotFound ==> out == AdjustNotFound)
        && (g == GateOpen && quantity.IntInvalid? ==> out == AdjustCrash)
        && (g == GateOpen && !quantity.IntInvalid? ==>
              var s := AdjustedStock(old(items)[pk].stock, IntOr(quantity, 0).value, kind);
              out == AdjustDone(s) && items == old(items)[pk := old(items)[pk].(stock := s)])
      ensures !out.AdjustDone? ==> items == old(items)
    {
      var g := StaffGate(role, pk in items, pk in items && items[pk].merchant in UserMerchants(merchants, members, user));
      if g == GateForbidden {
        return AdjustForbidden;
      } else if g == GateNotFound {
        return AdjustNotFound;
      }
      var q := IntOr(quantity, 0);
      if q.None? {
        return AdjustCrash;
      }
      var m := items[pk];
      var s;
      if kind == "IN" {
        s := m.stock + Abs(q.value);
      } else if kind == "OUT" {
        s := Max(0, m.stock - Abs(q.value));
      } else {
        s := Max(0, q.value);
      }
      items := items[pk := m.(stock := s)];
      out := AdjustDone(s);
    }

    /** `MerchantOrderViewSet.handle_out_of_stock`, after the access gate. The
      * lines are rewritten one request entry at a time, then the total is
      * summed over the lines; an unparsable reduction rolls everything back. */
    method HandleOutOfStock(pk: int, user: int, role: string, req: OutOfStockRequest) returns (g: Gate, out: Option<OutOfStockOutcome>)
      requires Valid()
      modifies this
      ensures Valid()
      ensures merchants == old(merchants) && members == old(members) && items == old(items)
      ensures nextOrderId == old(nextOrderId) && nextLineId == old(nextLineId)
      ensures g == StaffGate(role, pk in old(orders), old(OfMyStore(pk, user)))
      ensures g != GateOpen ==> out.None? && orders == old(orders)
      ensures g == GateOpen ==> out == Some(HandleOutOfStockOf(old(orders)[pk], old(items), req))
      ensures g == GateOpen && out.value.OutOfStockCrash? ==> orders == old(orders)
      ensures g == GateOpen && !out.value.OutOfStockCrash? ==> orders == old(orders)[pk := out.value.o]
    {
      g := StaffGate(role, pk in orders, OfMyStore(pk, user));
      if g != GateOpen {
        return g, None;
      }
      var o := orders[pk];
      if req.action == Some("CANCEL") {
        orders := orders[pk := CancelledOrder(o)];
        return g, Some(OutOfStockCancelled(CancelledOrder(o)));
      }
      var lines := o.items;
      if req.action == Some("SUBSTITUTE") {
        var subs := req.substitutions;
        var j := 0;
        while j < |subs|
          invariant 0 <= j <= |subs|
          invariant SubstituteAll(lines, items, subs[j..]) == SubstituteAll(o.items, items, subs)
        {
          assert subs[j..][1..] == subs[j + 1..];
          var k := LineIndex(lines, subs[j].orderItemId);
          var newId := subs[j].newMenuItemId;
          if k.Some? && newId.Some? && newId.value in items {
            var m := items[newId.value];
            var l := lines[k.value];
            lines := lines[k.value := l.(menuItem := newId, name := m.name, price := m.price, lineTotal := m.price * l.quantity)];
          }
          j := j + 1;
        }
      } else if req.action == Some("REDUCE") {
        var reds := req.reductions;
        var j := 0;
        while j < |reds|
          invariant 0 <= j <= |reds|
          invariant ReduceAll(lines, reds[j..]) == ReduceAll(o.items, reds)
        {
          assert reds[j..][1..] == reds[j + 1..];
          var n := IntOr(reds[j].newQuantity, 1);
          if n.None? {
            return g, Some(OutOfStockCrash);
          }
          var k := LineIndex(lines, reds[j].orderItemId);
          if k.Some? {
            var l := lines[k.value];
            var q := Max(1, n.value);
            lines := lines[k.value := l.(quantity := q, lineTotal := l.price * q)];
          }
          j := j + 1;
        }
      }
      var total := 0;
      var i := 0;
      while i < |lines|
        invariant 0 <= i <= |lines|
        invariant total + SumLineTotals(lines[i..]) == SumLineTotals(lines)
      {
        assert lines[i..][1..] == lines[i + 1..];
        total := total + lines[i].lineTotal;
        i := i + 1;
      }
      var o' := o.(items := lines, total := total);
      orders := orders[pk := o'];
      out := Some(OutOfStockRepriced(o'));
    }

    /** `MerchantOrderViewSet.refund`, after the access gate. */
    method Refund(pk: int, user: int, role: string, amount: Amount) returns (g: Gate, out: Option<RefundOutcome>)
      requires Valid()
      modifies this
      ensures Valid()
      ensures merchants == old(merchants) && members == old(members) && items == old(items)
      ensures nextOrderId == old(nextOrderId) && nextLineId == old(nextLineId)
      ensures g == StaffGate(role, pk in old(orders), old(OfMyStore(pk, user)))
      ensures g != GateOpen ==> out.None? && orders == old(orders)
      ensures g == GateOpen ==> out == Some(RefundDecision(old(orders)[pk], amount))
      ensures g == GateOpen && out.value.RefundDone? ==> orders == old(orders)[pk := old(orders)[pk].(payment := Refunded)]
      ensures g == GateOpen && !out.value.RefundDone? ==> orders == old(orders)
    {
      g := StaffGate(role, pk in orders, OfMyStore(pk, user));
      if g != GateOpen {
        return g, None;
      }
      var o := orders[pk];
      out := Some(RefundDecision(o, amount));
      if out.value.RefundDone? {
        orders := orders[pk := o.(payment := Refunded)];
      }
    }

    // -------------------------------------------------------------------
    // The shipper's order list
    // -------------------------------------------------------------------

    /** One iteration of the list loop: waiting orders only; a distance when
      * both positions are known, and then only within the radius. */
    method ShipperEntry(id: int, pos: ShipperPos, radius: real, dist: (Coords, Coords) -> real) returns (entry: Option<Listed>)
      ensures entry == QueueEntry(orders, merchants, id, pos, radius, dist)
    {
      entry := None;
      if id in orders && Waiting(orders[id]) {
        var o := orders[id];
        var sc := StoreCoords(merchants, o.merchant);
        if !pos.NoPos? && sc.Some? {
          if pos.Known? {
            var d := dist(pos.c, sc.value);
            if d <= radius {
              entry := Some(Listed(id, Some(d)));
            }
          }
        } else {
          entry := Some(Listed(id, None));
        }
      }
    }

    /** `ShipperViewSet.list`: the waiting orders, each with the distance
      * from the shipper to its store when both positions are known, within
      * the radius (20 by default), nearest first. `queue` is the rows the
      * query selects: every waiting order once, newest first. */
    method ShipperList(qlat: Param, qlng: Param, qradius: Param, profile: Option<ShipperProfile>,
                       queue: seq<int>, dist: (Coords, Coords) -> real) returns (r: seq<Listed>)
      requires WaitingQueue(orders, queue)
      ensures r == ShipperOrders(orders, merchants, queue, ResolveShipperPos(qlat, qlng, profile), FloatOr(qradius, 20.0), dist)
      ensures forall id ::
        ((exists e :: e in r && e.orderId == id)
          <==> id in orders && Waiting(orders[id])
               && InReach(orders[id], merchants, ResolveShipperPos(qlat, qlng, profile), FloatOr(qradius, 20.0), dist))
      ensures DistinctIds(r)
    {
      var pos := ResolveShipperPos(qlat, qlng, profile);
      var radius := FloatOr(qradius, 20.0);
      var acc := CollectCandidates(queue, pos, radius, dist);
      r := SortBy(acc, DistanceKey);
      ShipperListTable(orders, merchants, queue, pos, radius, dist);
    }

    /** The waiting orders of `queue` within reach, in queue order. */
    method CollectCandidates(queue: seq<int>, pos: ShipperPos, radius: real, dist: (Coords, Coords) -> real)
      returns (acc: seq<Listed>)
      ensures acc == Candidates(orders, merchants, queue, pos, radius, dist)
    {
      var os, ms := orders, merchants;
      acc := [];
      var i := 0;
      while i < |queue|
        invariant 0 <= i <= |queue|
        invariant Candidates(os, ms, queue, pos, radius, dist) == acc + Candidates(os, ms, queue[i..], pos, radius, dist)
      {
        var entry := ShipperEntry(queue[i], pos, radius, dist);
        var head := if entry.Some? then [entry.value] else [];
        acc := AppendCandidate(acc, head, os, ms, queue, i, pos, radius, dist);
        i := i + 1;
      }
      assert queue[i..] == [];
    }
  }

  /** Checkout followed by the customer's cancel gives every dish its stock
    * back; dishes not in the basket are exactly as before. */
  method CheckoutThenCancel(mk: Marketplace, user: int, merchantId: Option<int>, payload: Payload,
                            address: string, note: string, now: int)
    requires mk.Valid()
    modifies mk
    ensures mk.items.Keys == old(mk.items).Keys
    ensures forall id :: id in old(mk.items) ==> mk.items[id].stock == old(mk.items)[id].stock
    ensures forall id :: id in old(mk.items) ==> SameDish(mk.items[id], old(mk.items)[id])
  {
    var created := mk.Create(user, "customer", merchantId, payload, address, note, now);
    if created.Created? {
      ghost var res := CheckoutResultOf(old(mk.items), old(mk.merchants), "customer", merchantId, payload, old(mk.nextLineId));
      CheckoutThenRestock(old(mk.items), old(mk.merchants), "customer", merchantId, payload, old(mk.nextLineId));
      var cancelled := mk.Cancel(created.orderId, user);
      assert cancelled == CancelDone;
    }
  }
}
