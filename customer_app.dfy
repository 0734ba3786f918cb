// The customer home page (frontend/src/pages/CustomerApp.tsx): the nearby
// dishes turned into product cards ordered by distance, the search box, and
// the product card's add-to-cart button.
module CustomerApp {
  import opened Wrappers
  import opened Text
  import opened Lists
  import opened ClientCart

  const NoImagePlaceholder := "https://via.placeholder.com/200?text=No+Image"

  /** One dish as `GET /menus/nearby/` returns it. Prices arrive parsed;
    * `isAvailable` may be absent. */
  datatype MenuItemResponse = MenuItemResponse(
    id: int,
    name: string,
    description: Option<string>,
    price: int,
    imageUrl: Option<string>,
    merchantName: Option<string>,
    merchantId: Option<int>,
    distanceKm: Option<real>,
    isAvailable: Option<bool>)

  datatype Product = Product(
    id: int,
    name: string,
    description: string,
    price: int,
    imageUrl: string,
    merchantName: string,
    merchantId: Option<int>,
    distanceKm: Option<real>)

  // ---------------------------------------------------------------------
  // From the nearby response to the product list
  // ---------------------------------------------------------------------

  /** Only an explicit `false` hides a dish. */
  predicate Listed(item: MenuItemResponse)
  {
    item.isAvailable != Some(false)
  }

  function ToProduct(item: MenuItemResponse): (p: Product)
    ensures p.id == item.id && p.name == item.name && p.price == item.price
    ensures p.merchantId == item.merchantId && p.distanceKm == item.distanceKm
    ensures p.merchantName != ""
  {
    Product(item.id, item.name, OrElse(item.description, ""), item.price,
      OrElse(item.imageUrl, NoImagePlaceholder), OrElse(item.merchantName, "Unknown"),
      item.merchantId, item.distanceKm)
  }

  function ToProducts(items: seq<MenuItemResponse>): (r: seq<Product>)
    ensures |r| == |items|
    ensures forall i :: 0 <= i < |items| ==> r[i] == ToProduct(items[i])
  {
    seq(|items|, i requires 0 <= i < |items| => ToProduct(items[i]))
  }

  /** `distance_km || Infinity`: a missing or zero distance sorts last. */
  function DistanceKey(p: Product): Ext
  {
    if p.distanceKm.None? || p.distanceKm.value == 0.0 then Inf else Fin(p.distanceKm.value)
  }

  /** Drop the hidden dishes, map to products, sort stably by distance. */
  function Products(items: seq<MenuItemResponse>): seq<Product>
  {
    SortBy(ToProducts(Filter(items, Listed)), DistanceKey)
  }

  /** The list is ordered by distance, holds exactly the listed dishes'
    * products, and keeps the response order among equal distances. */
  lemma ProductsFacts(items: seq<MenuItemResponse>)
    ensures SortedBy(Products(items), DistanceKey)
    ensures multiset(Products(items)) == multiset(ToProducts(Filter(items, Listed)))
    ensures forall k :: WithKey(Products(items), DistanceKey, k)
                     == WithKey(ToProducts(Filter(items, Listed)), DistanceKey, k)
  {
    SortByFacts(ToProducts(Filter(items, Listed)), DistanceKey);
  }

  /** A product is shown iff it comes from a dish not marked unavailable. */
  lemma ProductsMembers(items: seq<MenuItemResponse>, p: Product)
    ensures p in Products(items) <==> exists item :: item in items && Listed(item) && ToProduct(item) == p
  {
    var listed := Filter(items, Listed);
    SortByMembers(ToProducts(listed), DistanceKey, p);
    if p in ToProducts(listed) {
      var i :| 0 <= i < |listed| && ToProducts(listed)[i] == p;
      assert listed[i] in listed;
    }
    if exists item :: item in items && Listed(item) && ToProduct(item) == p {
      var item :| item in items && Listed(item) && ToProduct(item) == p;
      FilterKeeps(items, Listed, item);
      var i :| 0 <= i < |listed| && listed[i] == item;
      assert ToProducts(listed)[i] == p;
    }
  }

  /** What `GET /menus/nearby/` gave: a failure, a body without `items`, or
    * the dishes. */
  datatype NearbyReply = NearbyFailed | NoItems | Items(items: seq<MenuItemResponse>)

  /** The products effect: nothing for a signed-out visitor, nothing without
    * a location, nothing when the request fails. */
  function FetchProducts(authenticated: bool, hasLocation: bool, reply: NearbyReply): (r: seq<Product>)
    ensures !authenticated || !hasLocation ==> r == []
    ensures r != [] ==> reply.Items? && r == Products(reply.items)
    ensures authenticated && hasLocation && reply.Items? ==> r == Products(reply.items)
  {
    if !authenticated || !hasLocation then []
    else match reply
      case Items(items) => Products(items)
      case _ => []
  }

  // ---------------------------------------------------------------------
  // Search
  // ---------------------------------------------------------------------

  predicate Matches(p: Product, term: string)
  {
    var t := Lower(term);
    Contains(Lower(p.name), t) || Contains(Lower(p.description), t) || Contains(Lower(p.merchantName), t)
  }

  function Search(products: seq<Product>, term: string): seq<Product>
  {
    Filter(products, (p: Product) => Matches(p, term))
  }

  /** A product is kept iff the lower-cased term occurs in its lower-cased
    * name, description or store name. */
  lemma SearchMembers(products: seq<Product>, term: string, p: Product)
    ensures p in Search(products, term) <==> p in products && Matches(p, term)
  {
    if p in products && Matches(p, term) {
      FilterKeeps(products, (q: Product) => Matches(q, term), p);
    }
  }

  /** An empty search box shows every product. */
  lemma SearchEmptyTerm(products: seq<Product>)
    ensures Search(products, "") == products
  {
    forall p | p in products ensures Matches(p, "") {
      assert Lower("") == "";
      EmptyContained(Lower(p.name));
    }
    FilterAll(products, (p: Product) => Matches(p, ""));
  }

  /** The case of the term does not matter. */
  lemma SearchIgnoresCase(products: seq<Product>, term: string)
    ensures Search(products, Lower(term)) == Search(products, term)
  {
    LowerIdempotent(term);
    FilterEquivalent(products, (p: Product) => Matches(p, Lower(term)), (p: Product) => Matches(p, term));
  }

  // ---------------------------------------------------------------------
  // Add to cart
  // ---------------------------------------------------------------------

  /** The entry a product card adds: one unit, carrying the product's
    * merchant id. */
  function ProductEntry(p: Product): (e: CartItem)
    ensures e.id == p.id && e.quantity == 1 && e.price == p.price
    ensures e.merchantId == p.merchantId
  {
    CartItem(p.id, p.name, OrElse(Some(p.merchantName), "Unknown"), p.merchantId, p.price, 1,
      OrElse(Some(p.imageUrl), FoodPlaceholder))
  }

  /** Signed out, the button only shows a warning; signed in, it adds the
    * product to the stored cart. */
  method AddToCart(storage: CartStorage, authenticated: bool, p: Product)
    modifies storage
    ensures authenticated ==> storage.cart == Added(old(storage.cart), ProductEntry(p))
    ensures !authenticated ==> storage.cart == old(storage.cart)
  {
    if !authenticated {
      return;
    }
    storage.Add(ProductEntry(p));
  }

  /** A product not yet in the cart is appended with quantity 1 and its
    * merchant id; one already there keeps the cart's length. */
  lemma {:induction false} AddProductEffect(cart: seq<CartItem>, p: Product)
    ensures p.id !in Ids(cart) ==> Added(cart, ProductEntry(p)) == cart + [ProductEntry(p)]
    ensures p.id in Ids(cart) ==> |Added(cart, ProductEntry(p))| == |cart|
  {
    AddedLength(cart, ProductEntry(p));
    var k := FirstIndexOf(cart, p.id);
    assert k >= 0 ==> cart[k] in cart;
  }
}
