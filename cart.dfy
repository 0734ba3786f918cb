// The customer's cart as the browser keeps it: the entries stored under the
// `cart` key of local storage, the cart page's price summary and its
// quantity and removal handlers (frontend/src/pages/Cart.tsx), and the
// add-to-cart step the product pages share.
module ClientCart {
  import opened Wrappers
  import opened Lists

  /** One cart entry. `merchantId` is only written by the home page's
    * product cards; prices are whole dong. */
  datatype CartItem = CartItem(
    id: int,
    productName: string,
    storeName: string,
    merchantId: Option<int>,
    price: int,
    quantity: int,
    imageUrl: string)

  /** The image a new entry gets when its product has none. */
  const FoodPlaceholder := "https://via.placeholder.com/200?text=Food"

  /** JavaScript `s || fallback` for a string that may be missing: a missing
    * or empty string gives the fallback. */
  function OrElse(s: Option<string>, fallback: string): (r: string)
    ensures s.Some? && s.value != "" ==> r == s.value
    ensures s.None? || s.value == "" ==> r == fallback
  {
    if s.Some? && s.value != "" then s.value else fallback
  }

  const DeliveryFee := 35000
  const DiscountThreshold := 200000
  const DiscountAmount := 10000

  // ---------------------------------------------------------------------
  // Subtotal
  // ---------------------------------------------------------------------

  function LineAmount(item: CartItem): int
  {
    item.price * item.quantity
  }

  /** `reduce((sum, item) => sum + item.price * item.quantity, 0)`. */
  function Subtotal(cart: seq<CartItem>): int
  {
    if |cart| == 0 then 0 else Subtotal(cart[..|cart| - 1]) + LineAmount(cart[|cart| - 1])
  }

  lemma {:induction false} SubtotalAppend(a: seq<CartItem>, b: seq<CartItem>)
    ensures Subtotal(a + b) == Subtotal(a) + Subtotal(b)
    decreases |b|
  {
    if |b| == 0 {
      assert a + b == a;
    } else {
      assert (a + b)[..|a + b| - 1] == a + b[..|b| - 1];
      SubtotalAppend(a, b[..|b| - 1]);
    }
  }

  /** Replacing one entry changes the subtotal by the difference of the two
    * entries' amounts. */
  lemma SubtotalReplace(cart: seq<CartItem>, k: int, x: CartItem)
    requires 0 <= k < |cart|
    ensures Subtotal(cart[k := x]) == Subtotal(cart) - LineAmount(cart[k]) + LineAmount(x)
  {
    assert cart == cart[..k] + [cart[k]] + cart[k + 1..];
    assert cart[k := x] == cart[..k] + [x] + cart[k + 1..];
    SubtotalAppend(cart[..k] + [cart[k]], cart[k + 1..]);
    SubtotalAppend(cart[..k], [cart[k]]);
    SubtotalAppend(cart[..k] + [x], cart[k + 1..]);
    SubtotalAppend(cart[..k], [x]);
    assert Subtotal([x]) == LineAmount(x) by { assert [x][..0] == []; }
    assert Subtotal([cart[k]]) == LineAmount(cart[k]) by { assert [cart[k]][..0] == []; }
  }

  predicate Priced(cart: seq<CartItem>)
  {
    forall i :: 0 <= i < |cart| ==> cart[i].price >= 0 && cart[i].quantity >= 0
  }

  lemma {:induction false} SubtotalNonNegative(cart: seq<CartItem>)
    requires Priced(cart)
    ensures Subtotal(cart) >= 0
    decreases |cart|
  {
    if |cart| > 0 {
      SubtotalNonNegative(cart[..|cart| - 1]);
    }
  }

  // ---------------------------------------------------------------------
  // Summary
  // ---------------------------------------------------------------------

  datatype Summary = Summary(subtotal: int, deliveryFee: int, discount: int, total: int)

  function Max0(x: int): int { if x < 0 then 0 else x }

  /** The delivery fee applies to any non-zero subtotal; the discount to a
    * subtotal strictly above the threshold; the total is clamped at 0. */
  function CartSummary(cart: seq<CartItem>): (r: Summary)
    ensures r.subtotal == Subtotal(cart)
    ensures r.deliveryFee == (if r.subtotal > 0 then DeliveryFee else 0)
    ensures r.discount == (if r.subtotal > DiscountThreshold then DiscountAmount else 0)
    ensures r.total >= 0
    ensures r.total >= r.subtotal + r.deliveryFee - r.discount
    ensures r.total == 0 || r.total == r.subtotal + r.deliveryFee - r.discount
  {
    var subtotal := Subtotal(cart);
    var fee := if subtotal > 0 then DeliveryFee else 0;
    var discount := if subtotal > DiscountThreshold then DiscountAmount else 0;
    Summary(subtotal, fee, discount, Max0(subtotal + fee - discount))
  }

  /** For a cart of non-negative prices and quantities the clamp never bites:
    * the total is the plain sum, it is zero exactly for a zero subtotal
    * (so the checkout button is disabled exactly then), and otherwise the
    * fee always outweighs the discount. */
  lemma SummaryOfPricedCart(cart: seq<CartItem>)
    requires Priced(cart)
    ensures var s := CartSummary(cart);
      s.total == s.subtotal + s.deliveryFee - s.discount
      && (s.total <= 0 <==> s.subtotal == 0)
      && (s.subtotal > 0 ==> s.total > s.subtotal)
  {
    SubtotalNonNegative(cart);
  }

  // ---------------------------------------------------------------------
  // Quantity updates and removal
  // ---------------------------------------------------------------------

  /** Every entry with the id gets the new quantity; nothing else changes. */
  function UpdateQuantity(cart: seq<CartItem>, id: int, quantity: int): (r: seq<CartItem>)
    ensures |r| == |cart|
    ensures forall i :: 0 <= i < |r| ==>
      r[i].id == cart[i].id
      && r[i] == (if cart[i].id == id then cart[i].(quantity := quantity) else cart[i])
  {
    seq(|cart|, i requires 0 <= i < |cart| => if cart[i].id == id then cart[i].(quantity := quantity) else cart[i])
  }

  /** The entries whose id differs, in their original order. */
  function RemoveItem(cart: seq<CartItem>, id: int): (r: seq<CartItem>)
  {
    Filter(cart, (x: CartItem) => x.id != id)
  }

  /** The entries the removal drops. */
  function WithId(cart: seq<CartItem>, id: int): seq<CartItem>
  {
    Filter(cart, (x: CartItem) => x.id == id)
  }

  /** Removal keeps exactly the entries with another id. */
  lemma RemoveItemMembers(cart: seq<CartItem>, id: int, x: CartItem)
    ensures x in RemoveItem(cart, id) <==> x in cart && x.id != id
  {
    if x in cart && x.id != id {
      FilterKeeps(cart, (y: CartItem) => y.id != id, x);
    }
  }

  /** The subtotal splits into what the removal keeps and what it drops. */
  lemma {:induction false} SubtotalSplit(cart: seq<CartItem>, id: int)
    ensures Subtotal(cart) == Subtotal(RemoveItem(cart, id)) + Subtotal(WithId(cart, id))
    decreases |cart|
  {
    if |cart| > 0 {
      var head, tail := cart[0], cart[1..];
      assert cart == [head] + tail;
      SubtotalSplit(tail, id);
      SubtotalAppend([head], tail);
      assert Subtotal([head]) == LineAmount(head) by { assert [head][..0] == []; }
      var kept := if head.id != id then [head] else [];
      var dropped := if head.id == id then [head] else [];
      assert RemoveItem(cart, id) == kept + RemoveItem(tail, id);
      assert WithId(cart, id) == dropped + WithId(tail, id);
      SubtotalAppend(kept, RemoveItem(tail, id));
      SubtotalAppend(dropped, WithId(tail, id));
      assert Subtotal(kept) + Subtotal(dropped) == LineAmount(head) by {
        assert Subtotal([]) == 0;
      }
    }
  }

  lemma RemoveItemIdempotent(cart: seq<CartItem>, id: int)
    ensures RemoveItem(RemoveItem(cart, id), id) == RemoveItem(cart, id)
  {
    FilterAll(RemoveItem(cart, id), (x: CartItem) => x.id != id);
  }

  /** Removing an entry undoes any quantity change made to it. */
  lemma {:induction false} RemoveAfterUpdate(cart: seq<CartItem>, id: int, quantity: int)
    ensures RemoveItem(UpdateQuantity(cart, id, quantity), id) == RemoveItem(cart, id)
    decreases |cart|
  {
    if |cart| > 0 {
      var u := UpdateQuantity(cart, id, quantity);
      assert u[1..] == UpdateQuantity(cart[1..], id, quantity);
      RemoveAfterUpdate(cart[1..], id, quantity);
    }
  }

  lemma UpdateQuantityIdempotent(cart: seq<CartItem>, id: int, quantity: int)
    ensures UpdateQuantity(UpdateQuantity(cart, id, quantity), id, quantity) == UpdateQuantity(cart, id, quantity)
  {
  }

  /** Ids are unique in a cart built only through add-to-cart. */
  predicate IdsUnique(cart: seq<CartItem>)
  {
    forall i, j :: 0 <= i < j < |cart| ==> cart[i].id != cart[j].id
  }

  /** With unique ids, setting one entry's quantity moves the subtotal by its
    * price times the change. */
  lemma {:induction false} UpdateQuantitySubtotal(cart: seq<CartItem>, k: int, quantity: int)
    requires IdsUnique(cart) && 0 <= k < |cart|
    ensures Subtotal(UpdateQuantity(cart, cart[k].id, quantity))
      == Subtotal(cart) + cart[k].price * (quantity - cart[k].quantity)
  {
    var x := cart[k].(quantity := quantity);
    var u := UpdateQuantity(cart, cart[k].id, quantity);
    forall i | 0 <= i < |cart| ensures u[i] == cart[k := x][i] {
      if i != k {
        assert cart[i].id != cart[k].id;
      }
    }
    assert u == cart[k := x];
    SubtotalReplace(cart, k, x);
    Distribute(cart[k].price, quantity, cart[k].quantity);
  }

  lemma Distribute(a: int, b: int, c: int)
    ensures a * b - a * c == a * (b - c)
  {
  }

  lemma UpdateQuantityKeepsUnique(cart: seq<CartItem>, id: int, quantity: int)
    requires IdsUnique(cart)
    ensures IdsUnique(UpdateQuantity(cart, id, quantity))
  {
  }

  lemma {:induction false} RemoveItemKeepsUnique(cart: seq<CartItem>, id: int)
    requires IdsUnique(cart)
    ensures IdsUnique(RemoveItem(cart, id))
    decreases |cart|
  {
    if |cart| > 0 {
      assert IdsUnique(cart[1..]);
      RemoveItemKeepsUnique(cart[1..], id);
      var rest := RemoveItem(cart[1..], id);
      if cart[0].id != id {
        forall j | 0 <= j < |rest| ensures rest[j].id != cart[0].id {
          assert rest[j] in cart[1..];
        }
        assert RemoveItem(cart, id) == [cart[0]] + rest;
      }
    }
  }

  // ---------------------------------------------------------------------
  // The +/- buttons of a cart entry
  // ---------------------------------------------------------------------

  /** A new quantity of at least 1 is stored; anything lower removes the
    * entry instead. */
  function QuantityChange(cart: seq<CartItem>, item: CartItem, delta: int): (r: seq<CartItem>)
  {
    var n := item.quantity + delta;
    if n >= 1 then UpdateQuantity(cart, item.id, n) else RemoveItem(cart, item.id)
  }

  predicate QuantitiesPositive(cart: seq<CartItem>)
  {
    forall i :: 0 <= i < |cart| ==> cart[i].quantity >= 1
  }

  /** The buttons never leave an entry with a quantity below 1. */
  lemma QuantityChangeKeepsPositive(cart: seq<CartItem>, item: CartItem, delta: int)
    requires QuantitiesPositive(cart)
    ensures QuantitiesPositive(QuantityChange(cart, item, delta))
  {
    var r := QuantityChange(cart, item, delta);
    if item.quantity + delta < 1 {
      forall i | 0 <= i < |r| ensures r[i].quantity >= 1 {
        assert r[i] in cart;
      }
    }
  }

  /** Pressing minus on an entry of quantity 1 removes it. */
  lemma MinusOnOneRemoves(cart: seq<CartItem>, item: CartItem)
    requires item.quantity == 1
    ensures forall x :: x in QuantityChange(cart, item, -1) ==> x.id != item.id
  {
  }

  // ---------------------------------------------------------------------
  // Checkout button
  // ---------------------------------------------------------------------

  datatype CheckoutStep = WarnEmpty | GoToCheckout

  function HandleCheckout(cart: seq<CartItem>): (r: CheckoutStep)
    ensures r == WarnEmpty <==> |cart| == 0
  {
    if |cart| == 0 then WarnEmpty else GoToCheckout
  }

  // ---------------------------------------------------------------------
  // Add to cart (shared by the home page and the restaurant page)
  // ---------------------------------------------------------------------

  /** `cart.findIndex(e => e.id === id)`. */
  function FirstIndexOf(cart: seq<CartItem>, id: int): (r: int)
    ensures -1 <= r < |cart|
    ensures r >= 0 ==> cart[r].id == id
    ensures forall j :: 0 <= j < |cart| && (r < 0 || j < r) ==> cart[j].id != id
    decreases |cart|
  {
    if |cart| == 0 then -1
    else if cart[0].id == id then 0
    else
      var k := FirstIndexOf(cart[1..], id);
      if k < 0 then -1 else k + 1
  }

  /** The first entry with the new entry's id gets one more unit; without
    * one, the new entry is appended. */
  function Added(cart: seq<CartItem>, entry: CartItem): seq<CartItem>
  {
    var k := FirstIndexOf(cart, entry.id);
    if k >= 0 then cart[k := cart[k].(quantity := cart[k].quantity + 1)] else cart + [entry]
  }

  function Ids(cart: seq<CartItem>): set<int>
  {
    set x | x in cart :: x.id
  }

  /** Adding raises the subtotal by one unit of the matching entry, or by the
    * new entry's amount; the set of ids gains the entry's id; uniqueness of
    * ids is kept. */
  lemma {:induction false} AddedFacts(cart: seq<CartItem>, entry: CartItem)
    ensures var k := FirstIndexOf(cart, entry.id);
      Subtotal(Added(cart, entry))
        == Subtotal(cart) + (if k >= 0 then cart[k].price else LineAmount(entry))
    ensures Ids(Added(cart, entry)) == Ids(cart) + {entry.id}
    ensures IdsUnique(cart) ==> IdsUnique(Added(cart, entry))
  {
    var k := FirstIndexOf(cart, entry.id);
    if k >= 0 {
      AddedExisting(cart, k);
    } else {
      AddedNew(cart, entry);
    }
  }

  /** One more unit of the entry at `k`. */
  lemma AddedExisting(cart: seq<CartItem>, k: int)
    requires 0 <= k < |cart|
    ensures var r := cart[k := cart[k].(quantity := cart[k].quantity + 1)];
      && Subtotal(r) == Subtotal(cart) + cart[k].price
      && Ids(r) == Ids(cart) + {cart[k].id}
      && (IdsUnique(cart) ==> IdsUnique(r))
  {
    var x := cart[k].(quantity := cart[k].quantity + 1);
    SubtotalReplace(cart, k, x);
    Distribute(cart[k].price, cart[k].quantity + 1, cart[k].quantity);
    ReplaceIds(cart, k, x);
    var r := cart[k := x];
    assert forall i :: 0 <= i < |r| ==> r[i].id == cart[i].id;
  }

  /** A new entry at the end. */
  lemma AddedNew(cart: seq<CartItem>, entry: CartItem)
    requires forall j :: 0 <= j < |cart| ==> cart[j].id != entry.id
    ensures Subtotal(cart + [entry]) == Subtotal(cart) + LineAmount(entry)
    ensures Ids(cart + [entry]) == Ids(cart) + {entry.id}
    ensures IdsUnique(cart) ==> IdsUnique(cart + [entry])
  {
    var r := cart + [entry];
    assert Subtotal(r) == Subtotal(cart) + LineAmount(entry) by { assert r[..|cart|] == cart; }
    assert Ids(r) == Ids(cart) + {entry.id} by { assert entry in r; }
    assert IdsUnique(cart) ==> IdsUnique(r) by { assert forall i :: 0 <= i < |cart| ==> r[i] == cart[i]; }
  }

  /** Replacing an entry by one with the same id keeps the ids. */
  lemma ReplaceIds(cart: seq<CartItem>, k: int, x: CartItem)
    requires 0 <= k < |cart| && x.id == cart[k].id
    ensures Ids(cart[k := x]) == Ids(cart) + {x.id}
  {
    var r := cart[k := x];
    forall v | v in Ids(r) ensures v in Ids(cart) {
      var y :| y in r && y.id == v;
      var i :| 0 <= i < |r| && r[i] == y;
      assert cart[i].id == v;
    }
    forall v | v in Ids(cart) ensures v in Ids(r) {
      var y :| y in cart && y.id == v;
      var i :| 0 <= i < |cart| && cart[i] == y;
      assert r[i].id == v;
    }
  }

  /** Adding an id already present never grows the cart. */
  lemma AddedLength(cart: seq<CartItem>, entry: CartItem)
    ensures |Added(cart, entry)| == |cart| + (if entry.id in Ids(cart) then 0 else 1)
  {
    if entry.id in Ids(cart) {
      var x :| x in cart && x.id == entry.id;
      var i :| 0 <= i < |cart| && cart[i] == x;
    }
  }

  /** The `cart` key of local storage, as parsed JSON; an absent key reads
    * as the empty cart. */
  class CartStorage {
    var cart: seq<CartItem>

    constructor()
      ensures cart == []
    {
      cart := [];
    }

    /** Parse the stored cart, find the entry with the same id, bump it or
      * push the new one, and store the result. */
    method Add(entry: CartItem)
      modifies this
      ensures cart == Added(old(cart), entry)
    {
      var items := cart;
      var i := 0;
      while i < |items| && items[i].id != entry.id
        invariant 0 <= i <= |items|
        invariant forall j :: 0 <= j < i ==> items[j].id != entry.id
      {
        i := i + 1;
      }
      if i < |items| {
        items := items[i := items[i].(quantity := items[i].quantity + 1)];
      } else {
        items := items + [entry];
      }
      cart := items;
    }
  }
}
