// The batch script that gives back the stock of every cancelled order, in
// one transaction, and reports how many lines and how much quantity it
// gave back.
module RestoreStock {
  import opened Wrappers
  import opened MenuModel
  import opened OrderModel
  import opened Checkout
  import opened OrderRules
  import opened OrderEngine

  /** The lines of the cancelled orders, order by order in `queue`'s order. */
  function CanceledLines(orders: map<int, Order>, queue: seq<int>): seq<OrderItem>
    decreases |queue|
  {
    if |queue| == 0 then []
    else (if queue[0] in orders && orders[queue[0]].status == Canceled then orders[queue[0]].items else [])
         + CanceledLines(orders, queue[1..])
  }

  /** The quantity of dish `id` ordered in the cancelled orders of `queue`,
    * summed order by order. */
  function CanceledQty(orders: map<int, Order>, queue: seq<int>, id: int): int
    decreases |queue|
  {
    if |queue| == 0 then 0
    else (if queue[0] in orders && orders[queue[0]].status == Canceled then QtyFor(orders[queue[0]].items, id) else 0)
         + CanceledQty(orders, queue[1..], id)
  }

  lemma {:induction false} CanceledLinesQty(orders: map<int, Order>, queue: seq<int>, id: int)
    ensures QtyFor(CanceledLines(orders, queue), id) == CanceledQty(orders, queue, id)
    decreases |queue|
  {
    if |queue| > 0 {
      var head := if queue[0] in orders && orders[queue[0]].status == Canceled then orders[queue[0]].items else [];
      QtyForAppend(head, CanceledLines(orders, queue[1..]), id);
      CanceledLinesQty(orders, queue[1..], id);
    }
  }

  lemma {:induction false} CanceledLinesAppend(orders: map<int, Order>, a: seq<int>, b: seq<int>)
    ensures CanceledLines(orders, a + b) == CanceledLines(orders, a) + CanceledLines(orders, b)
    decreases |a|
  {
    if |a| == 0 {
      assert a + b == b;
    } else {
      assert (a + b)[1..] == a[1..] + b;
      CanceledLinesAppend(orders, a[1..], b);
    }
  }

  /** What the script's query hands the loop: every CANCELED order of the
    * table once, and no other. */
  ghost predicate CanceledQueue(orders: map<int, Order>, queue: seq<int>)
  {
    && (forall k :: k in queue <==> k in orders && orders[k].status == Canceled)
    && (forall i, j :: 0 <= i < j < |queue| ==> queue[i] != queue[j])
  }

  /** The CANCELED orders of the table. */
  ghost function CanceledIds(orders: map<int, Order>): (r: set<int>)
    ensures forall k :: k in r <==> k in orders && orders[k].status == Canceled
  {
    set k | k in orders && orders[k].status == Canceled
  }

  /** What order `k` contributes of dish `id` when it is cancelled. */
  function CanceledPart(orders: map<int, Order>, k: int, id: int): int
  {
    if k in orders && orders[k].status == Canceled then QtyFor(orders[k].items, id) else 0
  }

  /** A non-empty set of ids has one to pick. */
  lemma SomeId(ks: set<int>)
    requires ks != {}
    ensures exists k :: k in ks
  {
    if forall k :: k !in ks {
      assert false;
    }
  }

  /** The quantity of dish `id` over the orders `ks`, in no particular order. */
  ghost function CanceledTotal(orders: map<int, Order>, ks: set<int>, id: int): int
    decreases ks
  {
    if ks == {} then 0
    else
      SomeId(ks);
      var k :| k in ks;
      CanceledPart(orders, k, id) + CanceledTotal(orders, ks - {k}, id)
  }

  /** The total does not depend on which order is taken out first. */
  lemma {:induction false} CanceledTotalRemove(orders: map<int, Order>, ks: set<int>, id: int, x: int)
    requires x in ks
    ensures CanceledTotal(orders, ks, id) == CanceledPart(orders, x, id) + CanceledTotal(orders, ks - {x}, id)
    decreases ks
  {
    SomeId(ks);
    var k :| k in ks && CanceledTotal(orders, ks, id) == CanceledPart(orders, k, id) + CanceledTotal(orders, ks - {k}, id);
    if k != x {
      CanceledTotalRemove(orders, ks - {k}, id, x);
      CanceledTotalRemove(orders, ks - {x}, id, k);
      assert ks - {k} - {x} == ks - {x} - {k};
    }
  }

  /** Summed along any repeat-free queue, the quantity is the total over its ids. */
  lemma {:induction false} CanceledQtyTotal(orders: map<int, Order>, queue: seq<int>, id: int)
    requires forall i, j :: 0 <= i < j < |queue| ==> queue[i] != queue[j]
    ensures CanceledQty(orders, queue, id) == CanceledTotal(orders, (set k | k in queue), id)
    decreases |queue|
  {
    var ks := set k | k in queue;
    if |queue| == 0 {
      assert ks == {};
    } else {
      assert forall i, j :: 0 <= i < j < |queue[1..]| ==> queue[1..][i] != queue[1..][j] by {
        forall i, j | 0 <= i < j < |queue[1..]| ensures queue[1..][i] != queue[1..][j] {
          assert queue[1..][i] == queue[i + 1] && queue[1..][j] == queue[j + 1];
        }
      }
      CanceledQtyTotal(orders, queue[1..], id);
      assert queue[0] !in queue[1..] by {
        forall m | 0 <= m < |queue[1..]| ensures queue[1..][m] != queue[0] {
          assert queue[1..][m] == queue[m + 1];
        }
      }
      assert (set k | k in queue[1..]) == ks - {queue[0]} by {
        assert queue == [queue[0]] + queue[1..];
      }
      CanceledTotalRemove(orders, ks, id, queue[0]);
    }
  }

  /** Every line of every order meets the quantity column's constraint. */
  predicate QuantitiesValid(orders: map<int, Order>)
  {
    forall k :: k in orders ==> NonNegativeQuantities(orders[k].items)
  }

  lemma {:induction false} CanceledLinesNonNegative(orders: map<int, Order>, queue: seq<int>)
    requires QuantitiesValid(orders)
    ensures NonNegativeQuantities(CanceledLines(orders, queue))
    decreases |queue|
  {
    if |queue| > 0 {
      CanceledLinesNonNegative(orders, queue[1..]);
      var head := if queue[0] in orders && orders[queue[0]].status == Canceled then orders[queue[0]].items else [];
      var all := CanceledLines(orders, queue);
      assert all == head + CanceledLines(orders, queue[1..]);
      assert NonNegativeQuantities(head) by {
        if queue[0] in orders && orders[queue[0]].status == Canceled {
          var k := queue[0];
          assert k in orders;
          assert NonNegativeQuantities(orders[k].items);
        }
      }
      forall i | 0 <= i < |all| ensures all[i].quantity >= 0 {
        if i < |head| {
          assert all[i] == head[i];
        } else {
          assert all[i] == CanceledLines(orders, queue[1..])[i - |head|];
        }
      }
    }
  }

  /** What the script does to the dish table: each dish gains the quantity
    * all the CANCELED orders of the table hold of it (orders in any other
    * status play no part), nothing else about a dish changes but its
    * flag, and the flag is only ever set, never cleared. */
  lemma RestoreStockEffect(items: map<int, MenuItem>, orders: map<int, Order>, queue: seq<int>)
    requires QuantitiesValid(orders)
    requires CanceledQueue(orders, queue)
    ensures var after := Restock(items, CanceledLines(orders, queue));
      && after.Keys == items.Keys
      && (forall id :: id in items ==> after[id].stock == items[id].stock + CanceledTotal(orders, CanceledIds(orders), id))
      && (forall id :: id in items ==> SameDish(after[id], items[id]))
      && (forall id :: id in items && items[id].available ==> after[id].available)
  {
    var lines := CanceledLines(orders, queue);
    CanceledLinesNonNegative(orders, queue);
    RestockEffect(items, lines);
    assert (set k | k in queue) == CanceledIds(orders) by {
      forall k ensures k in queue <==> k in CanceledIds(orders) {
      }
    }
    forall id | id in items ensures QtyFor(lines, id) == CanceledTotal(orders, CanceledIds(orders), id) {
      CanceledLinesQty(orders, queue, id);
      CanceledQtyTotal(orders, queue, id);
    }
  }

  /** An order that `cancel` already restocked is restocked again by the
    * script: the dish ends with the order's quantity counted twice. */
  lemma CancelThenRestoreCountsTwice(items: map<int, MenuItem>, o: Order, pk: int)
    requires o.status == Pending && NonNegativeQuantities(o.items)
    ensures var afterCancel := Restock(items, CancelledOrder(o).items);
      var orders := map[pk := CancelledOrder(o)];
      var afterScript := Restock(afterCancel, CanceledLines(orders, [pk]));
      && afterScript.Keys == items.Keys
      && forall id :: id in items ==> afterScript[id].stock == items[id].stock + 2 * QtyFor(o.items, id)
  {
    var orders := map[pk := CancelledOrder(o)];
    assert CanceledLines(orders, [pk]) == o.items + CanceledLines(orders, []);
    assert CanceledLines(orders, [pk]) == o.items;
    RestockTwice(items, o.items);
  }

  /** `restore_stock_for_canceled_orders`: `queue` is the rows the query
    * yields, each CANCELED order once. Returns `restored_count` and
    * `total_restored`. */
  method RestoreCanceled(mk: Marketplace, queue: seq<int>) returns (restoredCount: nat, totalRestored: int)
    requires QuantitiesValid(mk.orders)
    requires CanceledQueue(mk.orders, queue)
    modifies mk
    ensures mk.items == Restock(old(mk.items), CanceledLines(old(mk.orders), queue))
    ensures forall id :: id in old(mk.items) ==>
      id in mk.items && mk.items[id].stock == old(mk.items)[id].stock + CanceledTotal(old(mk.orders), CanceledIds(old(mk.orders)), id)
    ensures restoredCount == |Restorable(old(mk.items), CanceledLines(old(mk.orders), queue))|
    ensures totalRestored == TotalQuantity(Restorable(old(mk.items), CanceledLines(old(mk.orders), queue)))
    ensures mk.orders == old(mk.orders) && mk.merchants == old(mk.merchants) && mk.members == old(mk.members)
    ensures mk.nextOrderId == old(mk.nextOrderId) && mk.nextLineId == old(mk.nextLineId)
  {
    restoredCount, totalRestored := 0, 0;
    var i := 0;
    while i < |queue|
      invariant 0 <= i <= |queue|
      invariant mk.items == Restock(old(mk.items), CanceledLines(old(mk.orders), queue[..i]))
      invariant restoredCount == |Restorable(old(mk.items), CanceledLines(old(mk.orders), queue[..i]))|
      invariant totalRestored == TotalQuantity(Restorable(old(mk.items), CanceledLines(old(mk.orders), queue[..i])))
      invariant mk.orders == old(mk.orders) && mk.merchants == old(mk.merchants) && mk.members == old(mk.members)
      invariant mk.nextOrderId == old(mk.nextOrderId) && mk.nextLineId == old(mk.nextLineId)
    {
      var pk := queue[i];
      var batch := if pk in mk.orders && mk.orders[pk].status == Canceled then mk.orders[pk].items else [];
      BatchStep(old(mk.items), old(mk.orders), queue, i);
      if pk in mk.orders && mk.orders[pk].status == Canceled {
        var n, q := mk.RestockLines(mk.orders[pk].items);
        restoredCount := restoredCount + n;
        totalRestored := totalRestored + q;
      }
      i := i + 1;
    }
    assert queue[..i] == queue;
    RestoreStockEffect(old(mk.items), old(mk.orders), queue);
  }

  /** What one more order adds to the script's state and counts. */
  lemma BatchStep(items: map<int, MenuItem>, orders: map<int, Order>, queue: seq<int>, i: nat)
    requires i < |queue|
    ensures var batch := if queue[i] in orders && orders[queue[i]].status == Canceled then orders[queue[i]].items else [];
      var done := CanceledLines(orders, queue[..i]);
      var mid := Restock(items, done);
      && CanceledLines(orders, queue[..i + 1]) == done + batch
      && Restock(items, done + batch) == Restock(mid, batch)
      && Restorable(items, done + batch) == Restorable(items, done) + Restorable(mid, batch)
      && TotalQuantity(Restorable(items, done + batch))
         == TotalQuantity(Restorable(items, done)) + TotalQuantity(Restorable(mid, batch))
  {
    var batch := if queue[i] in orders && orders[queue[i]].status == Canceled then orders[queue[i]].items else [];
    var done := CanceledLines(orders, queue[..i]);
    assert queue[..i + 1] == queue[..i] + [queue[i]];
    CanceledLinesAppend(orders, queue[..i], [queue[i]]);
    assert CanceledLines(orders, [queue[i]]) == batch + CanceledLines(orders, []);
    RestockAppend(items, done, batch);
    RestorableAppend(items, done, batch);
    RestockKeys(items, done);
    RestorableSameKeys(items, Restock(items, done), batch);
    TotalQuantityAppend(Restorable(items, done), Restorable(items, batch));
  }
}
