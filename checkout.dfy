// The checkout page (frontend/src/pages/Checkout.tsx): its price summary and
// the place-order button, which re-checks every cart entry against the menu
// before it posts the order, and repairs the cart from the answer.
module CheckoutPage {
  import opened Wrappers
  import opened Text
  import opened ClientCart

  // ---------------------------------------------------------------------
  // Summary
  // ---------------------------------------------------------------------

  /** Same fee and discount as the cart page, but the total is not clamped. */
  function CheckoutSummary(cart: seq<CartItem>): (r: Summary)
    ensures r.subtotal == Subtotal(cart)
    ensures r.deliveryFee == CartSummary(cart).deliveryFee && r.discount == CartSummary(cart).discount
    ensures r.total == r.subtotal + r.deliveryFee - r.discount
  {
    var subtotal := Subtotal(cart);
    var fee := if subtotal > 0 then DeliveryFee else 0;
    var discount := if subtotal > DiscountThreshold then DiscountAmount else 0;
    Summary(subtotal, fee, discount, subtotal + fee - discount)
  }

  /** The two pages show the same total exactly when it is not negative,
    * which is always the case for a cart of non-negative prices. */
  lemma SummariesAgree(cart: seq<CartItem>)
    ensures CheckoutSummary(cart).total == CartSummary(cart).total <==> CheckoutSummary(cart).total >= 0
    ensures Priced(cart) ==> CheckoutSummary(cart) == CartSummary(cart)
  {
    if Priced(cart) {
      SummaryOfPricedCart(cart);
    }
  }

  // ---------------------------------------------------------------------
  // Re-checking the cart against the menu
  // ---------------------------------------------------------------------

  /** The fields of `GET /menus/{id}/` the check reads. */
  datatype MenuInfo = MenuInfo(merchantId: Option<int>, isAvailable: bool, stock: Option<int>)

  /** The answer for one entry: the dish, an empty body, or an error (a 404
    * or any other failure, which the page treats alike). */
  datatype Lookup = Found(info: MenuInfo) | NoData | LookupFailed

  /** A merchant id JavaScript treats as present: neither missing nor 0. */
  predicate Known(m: Option<int>)
  {
    m.Some? && m.value != 0
  }

  function StockOrZero(stock: Option<int>): int
  {
    if stock.Some? then stock.value else 0
  }

  datatype Verdict = Verdict(valid: bool, merchant: Option<int>)

  /** One pass of the loop body: adopt the dish's merchant if none is known
    * yet, then reject a dish of another merchant, an unavailable dish, or
    * too little stock. */
  function Check(item: CartItem, lookup: Lookup, merchant: Option<int>): (v: Verdict)
    ensures Known(merchant) ==> v.merchant == merchant
    ensures v.valid ==>
              lookup.Found? && lookup.info.isAvailable
              && StockOrZero(lookup.info.stock) >= item.quantity
              && (Known(lookup.info.merchantId) ==> lookup.info.merchantId == v.merchant)
  {
    match lookup
    case Found(info) =>
      var m := if !Known(merchant) && Known(info.merchantId) then info.merchantId else merchant;
      if Known(m) && info.merchantId != m then Verdict(false, m)
      else if !info.isAvailable then Verdict(false, m)
      else if StockOrZero(info.stock) < item.quantity then Verdict(false, m)
      else Verdict(true, m)
    case _ => Verdict(false, merchant)
  }

  datatype Partition = Partition(valid: seq<CartItem>, invalid: seq<CartItem>, merchant: Option<int>)

  /** The loop over the cart, one entry at a time, starting from the first
    * entry's stored merchant id. */
  function Validation(cart: seq<CartItem>, catalog: int -> Lookup, start: Option<int>): Partition
    decreases |cart|
  {
    if |cart| == 0 then Partition([], [], start)
    else
      var p := Validation(cart[..|cart| - 1], catalog, start);
      var item := cart[|cart| - 1];
      var v := Check(item, catalog(item.id), p.merchant);
      if v.valid then Partition(p.valid + [item], p.invalid, v.merchant)
      else Partition(p.valid, p.invalid + [item], v.merchant)
  }

  /** Every entry lands in exactly one of the two lists. */
  lemma {:induction false} ValidationPartitions(cart: seq<CartItem>, catalog: int -> Lookup, start: Option<int>)
    ensures var p := Validation(cart, catalog, start);
      |p.valid| + |p.invalid| == |cart| && multiset(p.valid) + multiset(p.invalid) == multiset(cart)
    decreases |cart|
  {
    if |cart| > 0 {
      ValidationPartitions(cart[..|cart| - 1], catalog, start);
      assert cart == cart[..|cart| - 1] + [cart[|cart| - 1]];
    }
  }

  /** With nothing rejected, every entry was accepted, in order. */
  lemma {:induction false} NothingRejected(cart: seq<CartItem>, catalog: int -> Lookup, start: Option<int>)
    requires Validation(cart, catalog, start).invalid == []
    ensures Validation(cart, catalog, start).valid == cart
    decreases |cart|
  {
    if |cart| > 0 {
      var init, item := cart[..|cart| - 1], cart[|cart| - 1];
      var p := Validation(init, catalog, start);
      var v := Check(item, catalog(item.id), p.merchant);
      assert v.valid && p.invalid == [];
      NothingRejected(init, catalog, start);
      assert cart == init + [item];
    }
  }

  /** A known merchant is never replaced: the first entry's merchant id, when
    * present, decides the store. */
  lemma {:induction false} MerchantSticky(cart: seq<CartItem>, catalog: int -> Lookup, start: Option<int>)
    requires Known(start)
    ensures Validation(cart, catalog, start).merchant == start
    decreases |cart|
  {
    if |cart| > 0 {
      MerchantSticky(cart[..|cart| - 1], catalog, start);
    }
  }

  /** Every accepted entry names an available dish with enough stock, and
    * every accepted dish that has a merchant belongs to the store the loop
    * settled on. */
  lemma {:induction false} AcceptedAreSound(cart: seq<CartItem>, catalog: int -> Lookup, start: Option<int>)
    ensures var p := Validation(cart, catalog, start);
      forall x :: x in p.valid ==>
        catalog(x.id).Found? && catalog(x.id).info.isAvailable
        && StockOrZero(catalog(x.id).info.stock) >= x.quantity
        && (Known(catalog(x.id).info.merchantId) ==> catalog(x.id).info.merchantId == p.merchant)
    decreases |cart|
  {
    if |cart| > 0 {
      var init := cart[..|cart| - 1];
      AcceptedAreSound(init, catalog, start);
      var p := Validation(init, catalog, start);
      var item := cart[|cart| - 1];
      var v := Check(item, catalog(item.id), p.merchant);
      forall x | x in p.valid && Known(catalog(x.id).info.merchantId)
        ensures v.merchant == p.merchant
      {
      }
    }
  }

  /** The loop as the page runs it. */
  method ValidateCart(cart: seq<CartItem>, catalog: int -> Lookup, start: Option<int>)
      returns (valid: seq<CartItem>, invalid: seq<CartItem>, merchant: Option<int>)
    ensures Partition(valid, invalid, merchant) == Validation(cart, catalog, start)
  {
    valid, invalid, merchant := [], [], start;
    var i := 0;
    while i < |cart|
      invariant 0 <= i <= |cart|
      invariant Partition(valid, invalid, merchant) == Validation(cart[..i], catalog, start)
    {
      var item := cart[i];
      var lookup := catalog(item.id);
      if lookup.Found? {
        var info := lookup.info;
        if !Known(merchant) && Known(info.merchantId) {
          merchant := info.merchantId;
        }
        if Known(merchant) && info.merchantId != merchant {
          invalid := invalid + [item];
        } else if !info.isAvailable {
          invalid := invalid + [item];
        } else if StockOrZero(info.stock) < item.quantity {
          invalid := invalid + [item];
        } else {
          valid := valid + [item];
        }
      } else {
        invalid := invalid + [item];
      }
      assert cart[..i + 1][..i] == cart[..i];
      i := i + 1;
    }
    assert cart[..i] == cart;
  }

  // ---------------------------------------------------------------------
  // The backend's answer
  // ---------------------------------------------------------------------

  /** The detail the order endpoint sends for a dish it cannot find
    * (backend/orders/views.py:250-254). */
  function MissingItemDetail(id: nat): string
  {
    "Menu item " + NatToString(id) + " không tồn tại"
  }

  /** `text.match(/Menu item (\d+)/)`: the number after the leftmost
    * "Menu item " that is followed by a digit. */
  function MenuItemRef(text: string): Option<nat>
    decreases |text|
  {
    if StartsWith(text, "Menu item ") && LeadingDigits(text[10..]) > 0 then
      Some(DigitsValue(text[10..10 + LeadingDigits(text[10..])]))
    else if |text| == 0 then None
    else MenuItemRef(text[1..])
  }

  /** The page reads back exactly the id the backend named. */
  lemma MissingItemRoundTrip(id: nat)
    ensures MenuItemRef(MissingItemDetail(id)) == Some(id)
    ensures Contains(MissingItemDetail(id), "Menu item")
    ensures Contains(MissingItemDetail(id), "không tồn tại")
  {
    var d := NatToString(id);
    var rest := " không tồn tại";
    var s := MissingItemDetail(id);
    assert s[..10] == "Menu item ";
    assert s[10..] == d + rest;
    LeadingDigitsOfRun(d, rest);
    assert s[10..10 + |d|] == d;
    DigitsValueOfNatToString(id);
    ContainsAt(s, "Menu item", 0);
    assert s[10 + |d|..] == rest;
    assert rest[1..] == "không tồn tại";
    assert s[11 + |d|..] == "không tồn tại";
    ContainsAt(s, "không tồn tại", 11 + |d|);
  }

  /** What `POST /orders/` gave: success, or an error whose body may carry
    * `detail` or `message`, and whose own `message` may be set. */
  datatype Reply = Created | Failed(detail: Option<string>, bodyMessage: Option<string>, errorMessage: Option<string>)

  /** The id a failure names as missing, when the page acts on it. */
  function RemovableId(reply: Reply): Option<nat>
  {
    if reply.Failed? && reply.detail.Some? && reply.detail.value != ""
       && Contains(reply.detail.value, "Menu item") && Contains(reply.detail.value, "không tồn tại")
    then MenuItemRef(reply.detail.value)
    else None
  }

  const DefaultError := "Không thể đặt hàng. Vui lòng thử lại."
  const RemovedNotice := "\n\nĐã tự động xóa món này khỏi giỏ hàng. Vui lòng thử lại."

  /** The toast text for a failure: the detail (with a notice when an entry
    * was removed), else the body's message, else the error's, else a
    * default. */
  function ErrorText(reply: Reply): string
    requires reply.Failed?
  {
    if reply.detail.Some? && reply.detail.value != "" then
      reply.detail.value + (if RemovableId(reply).Some? then RemovedNotice else "")
    else OrElse(reply.bodyMessage, OrElse(reply.errorMessage, DefaultError))
  }

  // ---------------------------------------------------------------------
  // Place order
  // ---------------------------------------------------------------------

  datatype OrderLine = OrderLine(menuItemId: int, quantity: int)

  datatype Request = Request(merchantId: int, items: seq<OrderLine>, deliveryAddress: string, paymentMethod: string)

  function Lines(cart: seq<CartItem>): (r: seq<OrderLine>)
    ensures |r| == |cart|
    ensures forall i :: 0 <= i < |cart| ==> r[i].menuItemId == cart[i].id && r[i].quantity == cart[i].quantity
  {
    seq(|cart|, i requires 0 <= i < |cart| => OrderLine(cart[i].id, cart[i].quantity))
  }

  datatype Outcome =
    | Busy
    | NeedAddress
    | EmptyCart
    | Rejected(invalid: seq<CartItem>)
    | NoMerchant
    | Ordered(request: Request)
    | OrderFailed(request: Request, message: string)

  /** The page state the button changes: the cart it shows, the stored cart
    * (`None` once the key is removed) and the outcome. */
  datatype Placed = Placed(outcome: Outcome, cart: seq<CartItem>, stored: Option<seq<CartItem>>)

  function PlaceOrder(cart: seq<CartItem>, stored: Option<seq<CartItem>>, loading: bool,
                      address: string, payment: string, catalog: int -> Lookup, reply: Reply): Placed
  {
    if loading then Placed(Busy, cart, stored)
    else if Strip(address) == "" then Placed(NeedAddress, cart, stored)
    else if |cart| == 0 then Placed(EmptyCart, cart, stored)
    else Submit(cart, stored, address, payment, catalog, reply)
  }

  /** Past the guards: check the entries, then send the order. */
  function Submit(cart: seq<CartItem>, stored: Option<seq<CartItem>>,
                  address: string, payment: string, catalog: int -> Lookup, reply: Reply): Placed
    requires |cart| > 0
  {
    var p := Validation(cart, catalog, cart[0].merchantId);
    if |p.invalid| > 0 then
      Placed(Rejected(p.invalid), p.valid, if |p.valid| > 0 then Some(p.valid) else None)
    else if !Known(p.merchant) then Placed(NoMerchant, cart, stored)
    else
      var request := Request(p.merchant.value, Lines(p.valid), address, payment);
      if reply.Created? then Placed(Ordered(request), [], None)
      else if RemovableId(reply).Some? then
        var kept := RemoveItem(cart, RemovableId(reply).value);
        Placed(OrderFailed(request, ErrorText(reply)), kept, Some(kept))
      else Placed(OrderFailed(request, ErrorText(reply)), cart, stored)
  }

  /** While a request is in flight, with a blank address, or with an empty
    * cart, the button changes nothing and sends nothing. */
  lemma {:induction false} PlaceOrderGuards(cart: seq<CartItem>, stored: Option<seq<CartItem>>, loading: bool,
                         address: string, payment: string, catalog: int -> Lookup, reply: Reply)
    requires loading || (forall i :: 0 <= i < |address| ==> IsSpace(address[i])) || |cart| == 0
    ensures var r := PlaceOrder(cart, stored, loading, address, payment, catalog, reply);
      r.cart == cart && r.stored == stored && r.outcome in {Busy, NeedAddress, EmptyCart}
  {
    StripEmptyIffBlank(address);
  }

  /** When any entry is rejected no order is sent; the cart shrinks to the
    * accepted entries in their order, and the stored key is removed when
    * none is left. */
  lemma {:induction false} RejectionKeepsAccepted(cart: seq<CartItem>, stored: Option<seq<CartItem>>, loading: bool,
                               address: string, payment: string, catalog: int -> Lookup, reply: Reply)
    ensures var r := PlaceOrder(cart, stored, loading, address, payment, catalog, reply);
      r.outcome.Rejected? ==>
        r.outcome.invalid != []
        && multiset(r.cart) + multiset(r.outcome.invalid) == multiset(cart)
        && (r.cart == [] <==> r.stored.None?)
        && (r.stored.Some? ==> r.stored.value == r.cart)
  {
    if !loading && Strip(address) != "" && |cart| > 0 {
      SubmitRejection(cart, stored, address, payment, catalog, reply);
    }
  }

  lemma {:induction false} SubmitRejection(cart: seq<CartItem>, stored: Option<seq<CartItem>>,
                                           address: string, payment: string, catalog: int -> Lookup, reply: Reply)
    requires |cart| > 0
    ensures var r := Submit(cart, stored, address, payment, catalog, reply);
      r.outcome.Rejected? ==>
        r.outcome.invalid != []
        && multiset(r.cart) + multiset(r.outcome.invalid) == multiset(cart)
        && (r.cart == [] <==> r.stored.None?)
        && (r.stored.Some? ==> r.stored.value == r.cart)
  {
    var p := Validation(cart, catalog, cart[0].merchantId);
    ValidationPartitions(cart, catalog, cart[0].merchantId);
    if |p.invalid| > 0 {
      assert Submit(cart, stored, address, payment, catalog, reply)
        == Placed(Rejected(p.invalid), p.valid, if |p.valid| > 0 then Some(p.valid) else None);
    }
  }

  /** A request, when one is sent, orders every cart entry, in order, with
    * its quantity, from one known store. */
  lemma {:induction false} RequestCoversCart(cart: seq<CartItem>, stored: Option<seq<CartItem>>, loading: bool,
                          address: string, payment: string, catalog: int -> Lookup, reply: Reply)
    ensures var r := PlaceOrder(cart, stored, loading, address, payment, catalog, reply);
      (r.outcome.Ordered? || r.outcome.OrderFailed?) ==>
        r.outcome.request.items == Lines(cart)
        && r.outcome.request.merchantId != 0
        && r.outcome.request.deliveryAddress == address
  {
    var r := PlaceOrder(cart, stored, loading, address, payment, catalog, reply);
    if !loading && Strip(address) != "" && |cart| > 0 {
      var p := Validation(cart, catalog, cart[0].merchantId);
      if |p.invalid| == 0 && Known(p.merchant) {
        NothingRejected(cart, catalog, cart[0].merchantId);
        assert r.outcome.request == Request(p.merchant.value, Lines(cart), address, payment);
      }
    }
  }

  /** A successful order empties the cart and removes the stored key. */
  lemma {:induction false} SuccessEmptiesCart(cart: seq<CartItem>, stored: Option<seq<CartItem>>, loading: bool,
                           address: string, payment: string, catalog: int -> Lookup)
    ensures var r := PlaceOrder(cart, stored, loading, address, payment, catalog, Created);
      r.outcome.Ordered? ==> r.cart == [] && r.stored.None?
  {
    if !loading && Strip(address) != "" && |cart| > 0 {
      assert PlaceOrder(cart, stored, loading, address, payment, catalog, Created)
        == Submit(cart, stored, address, payment, catalog, Created);
    }
  }

  /** When the backend reports a dish as missing, the page drops exactly that
    * dish's entries from the cart and keeps the rest. */
  lemma {:induction false} MissingItemDropped(cart: seq<CartItem>, stored: Option<seq<CartItem>>, loading: bool,
                           address: string, payment: string, catalog: int -> Lookup, id: nat)
    ensures var reply := Failed(Some(MissingItemDetail(id)), None, None);
      var r := PlaceOrder(cart, stored, loading, address, payment, catalog, reply);
      r.outcome.OrderFailed? ==> r.cart == RemoveItem(cart, id) && r.stored == Some(r.cart)
  {
    MissingItemRoundTrip(id);
  }

  /** The page's own state. */
  class Checkout {
    var cartItems: seq<CartItem>
    var stored: Option<seq<CartItem>>
    var loading: bool

    constructor(saved: Option<seq<CartItem>>)
      ensures stored == saved && loading == false
      ensures cartItems == (if saved.Some? then saved.value else [])
    {
      stored := saved;
      cartItems := if saved.Some? then saved.value else [];
      loading := false;
    }

    /** `handlePlaceOrder`, with the menu lookups and the order endpoint's
      * answer as parameters. */
    method HandlePlaceOrder(address: string, payment: string, catalog: int -> Lookup, reply: Reply)
        returns (outcome: Outcome)
      modifies this
      ensures Placed(outcome, cartItems, stored)
        == PlaceOrder(old(cartItems), old(stored), old(loading), address, payment, catalog, reply)
      ensures loading == old(loading)
    {
      if loading {
        return Busy;
      }
      if Strip(address) == "" {
        return NeedAddress;
      }
      if |cartItems| == 0 {
        return EmptyCart;
      }
      loading := true;
      var valid, invalid, merchant := ValidateCart(cartItems, catalog, cartItems[0].merchantId);
      if |invalid| > 0 {
        if |valid| > 0 {
          stored := Some(valid);
          cartItems := valid;
        } else {
          stored := None;
          cartItems := [];
        }
        loading := false;
        return Rejected(invalid);
      }
      if !Known(merchant) {
        loading := false;
        return NoMerchant;
      }
      var request := Request(merchant.value, Lines(valid), address, payment);
      if reply.Created? {
        stored := None;
        cartItems := [];
        outcome := Ordered(request);
      } else {
        var removable := RemovableId(reply);
        if removable.Some? {
          var kept := RemoveItem(cartItems, removable.value);
          stored := Some(kept);
          cartItems := kept;
        }
        outcome := OrderFailed(request, ErrorText(reply));
      }
      loading := false;
    }
  }
}
