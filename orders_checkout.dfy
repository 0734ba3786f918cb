// The rules of `OrderViewSet.create` (customer checkout), as functions over
// the menu-item table. The view walks the basket rows one by one inside one
// transaction; a row either records a stock error and moves on, aborts the
// whole request, or takes stock and adds an order line.
module Checkout {
  import opened Wrappers
  import opened Params
  import opened MenuModel
  import opened OrderModel

  /** One basket row of the request: `menu_item_id` and `quantity`. */
  datatype Row = Row(menuItemId: Option<int>, quantity: IntField)

  /** The `items` field of the request: a list of rows or something else. */
  datatype Payload = NotAList | Rows(rows: seq<Row>)

  /** Python truthiness of an id: missing and 0 are false. */
  predicate FalsyId(id: Option<int>)
  {
    id.None? || id.value == 0
  }

  /** The per-row problems collected in `stock_errors`. */
  datatype RowError =
    | InvalidId
    | SoldOut(name: string, stock: int)
    | NotEnough(name: string, stock: int, wanted: int)

  /** What the view has done so far inside the transaction. */
  datatype Progress = Progress(
    items: map<int, MenuItem>,
    total: int,
    errors: seq<RowError>,
    lines: seq<OrderItem>,
    nextLineId: int)

  /** An immediate rollback: an unknown dish (400) or a server error (500). */
  datatype Abort = UnknownDish(id: int) | Crash

  datatype Step = Go(p: Progress) | Stop(a: Abort)

  /** One iteration of the basket loop.
    * - `int(quantity)` raising is an uncaught exception;
    * - a falsy id is a stock error;
    * - a dish missing or of another merchant aborts with 400;
    * - stock below the quantity is a stock error;
    * - otherwise the stock drops by the quantity, availability becomes
    *   "stock left > 0", and a line is created, which the quantity column's
    *   non-negative constraint refuses for a negative quantity. */
  function CheckoutRow(p: Progress, merchant: int, row: Row): Step
  {
    var q := IntOr(row.quantity, 1);
    if q.None? then Stop(Crash)
    else if FalsyId(row.menuItemId) then Go(p.(errors := p.errors + [InvalidId]))
    else
      var id := row.menuItemId.value;
      if id !in p.items || p.items[id].merchant != merchant then Stop(UnknownDish(id))
      else
        var m := p.items[id];
        var qty := q.value;
        if m.stock < qty then
          Go(p.(errors := p.errors + [if m.stock <= 0 then SoldOut(m.name, m.stock) else NotEnough(m.name, m.stock, qty)]))
        else if qty < 0 then Stop(Crash)
        else
          var left := m.stock - qty;
          var line := OrderItem(p.nextLineId, Some(id), m.name, m.price, qty, m.price * qty);
          Go(Progress(p.items[id := m.(stock := left, available := left > 0)],
                      p.total + m.price * qty, p.errors, p.lines + [line], p.nextLineId + 1))
  }

  /** The whole basket loop. */
  function RunRows(p: Progress, merchant: int, rows: seq<Row>): Step
    decreases |rows|
  {
    if |rows| == 0 then Go(p)
    else match CheckoutRow(p, merchant, rows[0])
      case Stop(a) => Stop(a)
      case Go(p') => RunRows(p', merchant, rows[1..])
  }

  /** The response of `create`. */
  datatype CreateOutcome =
    | Forbidden
    | MissingMerchant
    | EmptyItems
    | MerchantNotFound
    | UnknownItem(id: int)
    | ServerError
    | StockErrors(errors: seq<RowError>)
    | Created(orderId: int)

  /** Refused with a response and a rollback, or accepted with the final progress. */
  datatype CheckoutResult = Refused(outcome: CreateOutcome) | Accepted(p: Progress)

  function Start(items: map<int, MenuItem>, firstLineId: int): Progress
  {
    Progress(items, 0, [], [], firstLineId)
  }

  /** The decision of `create` for a caller of role `role`. */
  function CheckoutResultOf(items: map<int, MenuItem>, merchants: map<int, Merchant>, role: string,
                            merchantId: Option<int>, payload: Payload, firstLineId: int): CheckoutResult
  {
    if role != "customer" && role != "admin" then Refused(Forbidden)
    else if FalsyId(merchantId) then Refused(MissingMerchant)
    else if payload.NotAList? || |payload.rows| == 0 then Refused(EmptyItems)
    else if merchantId.value !in merchants || !merchants[merchantId.value].active then Refused(MerchantNotFound)
    else
      match RunRows(Start(items, firstLineId), merchantId.value, payload.rows)
      case Stop(UnknownDish(id)) => Refused(UnknownItem(id))
      case Stop(Crash) => Refused(ServerError)
      case Go(p) => if |p.errors| > 0 then Refused(StockErrors(p.errors)) else Accepted(p)
  }

  // ---------------------------------------------------------------------
  // What a successful checkout did
  // ---------------------------------------------------------------------

  /** The dish fields checkout never writes. */
  predicate SameDish(a: MenuItem, b: MenuItem)
  {
    a.merchant == b.merchant && a.name == b.name && a.description == b.description && a.price == b.price
  }

  /** The relation between the table before the loop (`items0`) and the
    * progress `p`: stock went down by exactly what the lines took, touched
    * dishes are available iff stock is left, untouched dishes keep their
    * flag, and each line snapshots a dish of `merchant`. */
  predicate Tracks(items0: map<int, MenuItem>, p: Progress, merchant: int)
  {
    && p.items.Keys == items0.Keys
    && (forall id :: id in items0 ==> SameDish(p.items[id], items0[id]))
    && (forall id :: id in items0 ==> p.items[id].stock == items0[id].stock - QtyFor(p.lines, id))
    && (forall id :: id in items0 && Touched(p.lines, id) ==>
          p.items[id].available == (p.items[id].stock > 0) && p.items[id].stock >= 0)
    && (forall id :: id in items0 && !Touched(p.lines, id) ==> p.items[id].available == items0[id].available)
    && (forall i :: 0 <= i < |p.lines| ==> LineOf(items0, p.lines[i], merchant))
    && LinesConsistent(p.lines)
    && p.total == SumLineTotals(p.lines)
  }

  /** A line taken from a dish of `merchant`, with that dish's name and price. */
  predicate LineOf(items0: map<int, MenuItem>, line: OrderItem, merchant: int)
  {
    && line.menuItem.Some?
    && line.menuItem.value in items0
    && items0[line.menuItem.value].merchant == merchant
    && line.name == items0[line.menuItem.value].name
    && line.price == items0[line.menuItem.value].price
    && line.quantity >= 0
  }

  lemma QtyForOne(line: OrderItem, id: int)
    ensures QtyFor([line], id) == if line.menuItem == Some(id) then line.quantity else 0
  {
  }

  lemma SumLineTotalsOne(line: OrderItem)
    ensures SumLineTotals([line]) == line.lineTotal
  {
  }

  /** One loop iteration keeps the relation. */
  lemma CheckoutRowTracks(items0: map<int, MenuItem>, p: Progress, merchant: int, row: Row)
    requires Tracks(items0, p, merchant)
    requires CheckoutRow(p, merchant, row).Go?
    ensures Tracks(items0, CheckoutRow(p, merchant, row).p, merchant)
  {
    var p' := CheckoutRow(p, merchant, row).p;
    if p'.lines != p.lines {
      var id := row.menuItemId.value;
      var line := p'.lines[|p'.lines| - 1];
      assert p'.lines == p.lines + [line];
      assert line.menuItem == Some(id);
      forall j | j in items0
        ensures p'.items[j].stock == items0[j].stock - QtyFor(p'.lines, j)
        ensures Touched(p'.lines, j) <==> Touched(p.lines, j) || j == id
      {
        QtyForAppend(p.lines, [line], j);
        QtyForOne(line, j);
        TouchedAppend(p.lines, line, j);
      }
      SumLineTotalsAppend(p.lines, [line]);
      SumLineTotalsOne(line);
      assert forall i :: 0 <= i < |p.lines| ==> p'.lines[i] == p.lines[i];
    }
  }

  /** The whole loop keeps the relation. */
  lemma {:induction false} RunRowsTracks(items0: map<int, MenuItem>, p: Progress, merchant: int, rows: seq<Row>)
    requires Tracks(items0, p, merchant)
    requires RunRows(p, merchant, rows).Go?
    ensures Tracks(items0, RunRows(p, merchant, rows).p, merchant)
    decreases |rows|
  {
    if |rows| > 0 {
      CheckoutRowTracks(items0, p, merchant, rows[0]);
      RunRowsTracks(items0, CheckoutRow(p, merchant, rows[0]).p, merchant, rows[1..]);
    }
  }

  /** A successful checkout:
    * - every dish's stock went down by exactly the quantity ordered of it;
    * - a dish that was ordered is available iff stock is left, and its
    *   stock is not negative; its earlier flag plays no part;
    * - a dish that was not ordered keeps its flag;
    * - names and prices are untouched;
    * - the order total is the sum of price times quantity over the lines,
    *   and each line's total is its price times its quantity;
    * - every line is a non-negative quantity of a dish of the chosen merchant. */
  lemma CheckoutAccepted(items: map<int, MenuItem>, merchants: map<int, Merchant>, role: string,
                         merchantId: Option<int>, payload: Payload, firstLineId: int)
    requires CheckoutResultOf(items, merchants, role, merchantId, payload, firstLineId).Accepted?
    ensures var p := CheckoutResultOf(items, merchants, role, merchantId, payload, firstLineId).p;
      && (role == "customer" || role == "admin")
      && merchantId.Some? && merchantId.value in merchants && merchants[merchantId.value].active
      && p.items.Keys == items.Keys
      && (forall id :: id in items ==> p.items[id].stock == items[id].stock - QtyFor(p.lines, id))
      && (forall id :: id in items && Touched(p.lines, id) ==>
            p.items[id].available == (p.items[id].stock > 0) && p.items[id].stock >= 0)
      && (forall id :: id in items && !Touched(p.lines, id) ==> p.items[id] == items[id])
      && (forall id :: id in items ==> SameDish(p.items[id], items[id]))
      && p.total == SumPriceTimesQty(p.lines)
      && LinesConsistent(p.lines)
      && (forall i :: 0 <= i < |p.lines| ==> LineOf(items, p.lines[i], merchantId.value))
  {
    var p := CheckoutResultOf(items, merchants, role, merchantId, payload, firstLineId).p;
    assert Tracks(items, Start(items, firstLineId), merchantId.value);
    RunRowsTracks(items, Start(items, firstLineId), merchantId.value, payload.rows);
    SumsAgree(p.lines);
    forall id | id in items && !Touched(p.lines, id)
      ensures p.items[id] == items[id]
    {
      assert QtyFor(p.lines, id) == 0 by { UntouchedQty(p.lines, id); }
    }
  }

  // ---------------------------------------------------------------------
  // All or nothing
  // ---------------------------------------------------------------------

  /** The loop never forgets an error it has recorded. */
  lemma {:induction false} RunRowsErrorsGrow(p: Progress, merchant: int, rows: seq<Row>)
    requires RunRows(p, merchant, rows).Go?
    ensures |RunRows(p, merchant, rows).p.errors| >= |p.errors|
    decreases |rows|
  {
    if |rows| > 0 {
      RunRowsErrorsGrow(CheckoutRow(p, merchant, rows[0]).p, merchant, rows[1..]);
    }
  }

  /** A row with no dish id, or a row asking for more than the stock left
    * at that point, means the loop ends with an error recorded, unless an
    * abort came first. */
  lemma {:induction false} RunRowsRecordsRowError(p: Progress, merchant: int, rows: seq<Row>, k: nat)
    requires k < |rows| && RunRows(p, merchant, rows).Go?
    requires CheckoutRow(RunRowsPrefix(p, merchant, rows, k), merchant, rows[k]).Go?
    requires |CheckoutRow(RunRowsPrefix(p, merchant, rows, k), merchant, rows[k]).p.errors|
             > |RunRowsPrefix(p, merchant, rows, k).errors|
    ensures |RunRows(p, merchant, rows).p.errors| > 0
    decreases k
  {
    var p' := CheckoutRow(p, merchant, rows[0]).p;
    if k == 0 {
      RunRowsErrorsGrow(p', merchant, rows[1..]);
    } else {
      assert rows[1..][k - 1] == rows[k];
      RunRowsRecordsRowError(p', merchant, rows[1..], k - 1);
    }
  }

  /** The progress before row `k`, when no earlier row aborted. */
  function RunRowsPrefix(p: Progress, merchant: int, rows: seq<Row>, k: nat): Progress
    requires k < |rows| && RunRows(p, merchant, rows).Go?
    decreases k
  {
    if k == 0 then p else RunRowsPrefix(CheckoutRow(p, merchant, rows[0]).p, merchant, rows[1..], k - 1)
  }

  /** A basket row without a dish id makes the whole checkout fail: no order
    * is created and no stock moves. */
  lemma CheckoutRejectsMissingId(items: map<int, MenuItem>, merchants: map<int, Merchant>, role: string,
                                 merchantId: Option<int>, payload: Payload, firstLineId: int, k: nat)
    requires payload.Rows? && k < |payload.rows|
    requires FalsyId(payload.rows[k].menuItemId) && !payload.rows[k].quantity.IntInvalid?
    ensures CheckoutResultOf(items, merchants, role, merchantId, payload, firstLineId).Refused?
  {
    if CheckoutResultOf(items, merchants, role, merchantId, payload, firstLineId).Accepted? {
      var p0 := Start(items, firstLineId);
      RunRowsRecordsRowError(p0, merchantId.value, payload.rows, k);
    }
  }

  /** A basket row asking for more than the dish has left at that point
    * makes the whole checkout fail. */
  lemma CheckoutRejectsShortStock(items: map<int, MenuItem>, merchants: map<int, Merchant>, role: string,
                                  merchantId: Option<int>, payload: Payload, firstLineId: int, k: nat)
    requires payload.Rows? && k < |payload.rows|
    requires CheckoutResultOf(items, merchants, role, merchantId, payload, firstLineId).Accepted?
    ensures var pk := RunRowsPrefix(Start(items, firstLineId), merchantId.value, payload.rows, k);
      var row := payload.rows[k];
      row.menuItemId.Some? && row.menuItemId.value in pk.items && row.quantity.IntGiven?
      ==> row.quantity.n <= pk.items[row.menuItemId.value].stock
  {
    var pk := RunRowsPrefix(Start(items, firstLineId), merchantId.value, payload.rows, k);
    var row := payload.rows[k];
    if row.menuItemId.Some? && row.menuItemId.value in pk.items && row.quantity.IntGiven?
       && row.quantity.n > pk.items[row.menuItemId.value].stock {
      PrefixThenRow(Start(items, firstLineId), merchantId.value, payload.rows, k);
      RunRowsRecordsRowError(Start(items, firstLineId), merchantId.value, payload.rows, k);
    }
  }

  /** When the whole loop succeeds, row `k` did not abort either. */
  lemma {:induction false} PrefixThenRow(p: Progress, merchant: int, rows: seq<Row>, k: nat)
    requires k < |rows| && RunRows(p, merchant, rows).Go?
    ensures CheckoutRow(RunRowsPrefix(p, merchant, rows, k), merchant, rows[k]).Go?
    decreases k
  {
    if k > 0 {
      assert rows[1..][k - 1] == rows[k];
      PrefixThenRow(CheckoutRow(p, merchant, rows[0]).p, merchant, rows[1..], k - 1);
    }
  }
}
