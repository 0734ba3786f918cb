// A restaurant's page (frontend/src/pages/RestaurantDetail.tsx): the menu
// search box and the add-to-cart button, which, unlike the home page's,
// stores no merchant id.
module RestaurantDetail {
  import opened Wrappers
  import opened Text
  import opened Lists
  import opened ClientCart

  /** One dish of the restaurant's menu. */
  datatype MenuItem = MenuItem(
    id: int,
    name: string,
    description: Option<string>,
    price: int,
    imageUrl: Option<string>,
    isAvailable: bool)

  // ---------------------------------------------------------------------
  // Search
  // ---------------------------------------------------------------------

  /** `description?.toLowerCase().includes(...)` is `undefined`, so false,
    * for a dish without a description. */
  predicate Matches(item: MenuItem, term: string)
  {
    var t := Lower(term);
    Contains(Lower(item.name), t) || (item.description.Some? && Contains(Lower(item.description.value), t))
  }

  function FilteredMenuItems(items: seq<MenuItem>, term: string): seq<MenuItem>
  {
    Filter(items, (item: MenuItem) => Matches(item, term))
  }

  /** A dish is kept iff the term occurs in its name or its description,
    * ignoring case. */
  lemma FilteredMembers(items: seq<MenuItem>, term: string, item: MenuItem)
    ensures item in FilteredMenuItems(items, term) <==> item in items && Matches(item, term)
  {
    if item in items && Matches(item, term) {
      FilterKeeps(items, (x: MenuItem) => Matches(x, term), item);
    }
  }

  /** An empty search box shows the whole menu, dishes without a description
    * included. */
  lemma FilteredEmptyTerm(items: seq<MenuItem>)
    ensures FilteredMenuItems(items, "") == items
  {
    forall item | item in items ensures Matches(item, "") {
      assert Lower("") == "";
      EmptyContained(Lower(item.name));
    }
    FilterAll(items, (x: MenuItem) => Matches(x, ""));
  }

  /** A dish without a description is found only through its name. */
  lemma NoDescriptionNameOnly(item: MenuItem, term: string)
    requires item.description.None?
    ensures Matches(item, term) <==> Contains(Lower(item.name), Lower(term))
  {
  }

  // ---------------------------------------------------------------------
  // Add to cart
  // ---------------------------------------------------------------------

  /** The entry this page adds: one unit under the restaurant's name, with no
    * merchant id. */
  function MenuEntry(item: MenuItem, restaurantName: Option<string>): (e: CartItem)
    ensures e.id == item.id && e.quantity == 1 && e.price == item.price
    ensures e.merchantId.None?
    ensures e.storeName == "Unknown" <==> restaurantName.None? || restaurantName.value in {"", "Unknown"}
  {
    CartItem(item.id, item.name, OrElse(restaurantName, "Unknown"), None, item.price, 1,
      OrElse(item.imageUrl, FoodPlaceholder))
  }

  /** Signed out, the button only shows a warning; signed in, it adds the
    * dish to the stored cart. */
  method AddToCart(storage: CartStorage, authenticated: bool, item: MenuItem, restaurantName: Option<string>)
    modifies storage
    ensures authenticated ==> storage.cart == Added(old(storage.cart), MenuEntry(item, restaurantName))
    ensures !authenticated ==> storage.cart == old(storage.cart)
  {
    if !authenticated {
      return;
    }
    storage.Add(MenuEntry(item, restaurantName));
  }

  /** A dish added from this page for the first time is the cart's last
    * entry and has no merchant id; one already in the cart only gains a
    * unit, so the entry keeps whatever merchant id it had. */
  lemma {:induction false} AddMenuItemEffect(cart: seq<CartItem>, item: MenuItem, restaurantName: Option<string>)
    ensures var r := Added(cart, MenuEntry(item, restaurantName));
      item.id !in Ids(cart) ==> r == cart + [MenuEntry(item, restaurantName)] && r[|cart|].merchantId.None?
    ensures var r := Added(cart, MenuEntry(item, restaurantName));
      item.id in Ids(cart) ==> |r| == |cart| && forall i :: 0 <= i < |cart| ==> r[i].merchantId == cart[i].merchantId
  {
    AddedLength(cart, MenuEntry(item, restaurantName));
    var k := FirstIndexOf(cart, item.id);
    assert k >= 0 ==> cart[k] in cart;
  }
}
