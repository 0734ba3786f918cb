// The read-only menu endpoints: the stores near a customer, the dishes of
// those stores, and which dishes a caller may see at all.
module MenuViews {
  import opened Wrappers
  import opened Params
  import opened Lists
  import opened MenuModel
  import opened OrderRules

  // ---------------------------------------------------------------------
  // The customer's position and the response shapes
  // ---------------------------------------------------------------------

  /** The `lat`/`lng` query parameters: one of them empty or missing, both
    * present but one not a number, or a position. */
  datatype PosRead = PosMissing | PosInvalid | PosAt(c: Coords)

  function ReadCustomerPos(lat: Param, lng: Param): (r: PosRead)
    ensures r.PosMissing? <==> !Given(lat) || !Given(lng)
    ensures r.PosInvalid? <==> Given(lat) && Given(lng) && (lat.NonNumeric? || lng.NonNumeric?)
    ensures r.PosAt? <==> lat.Numeric? && lng.Numeric?
    ensures r.PosAt? ==> r.c == Coords(lat.v, lng.v)
  {
    if !Given(lat) || !Given(lng) then PosMissing
    else if lat.Numeric? && lng.Numeric? then PosAt(Coords(lat.v, lng.v))
    else PosInvalid
  }

  /** One listed store or dish with its distance from the customer. */
  datatype Near = Near(id: int, distance: real)

  /** What a `nearby` endpoint answers: 400 for missing or non-numeric
    * coordinates, the "no store within the radius" message (dishes only),
    * or the list with the radius used and the customer's position. */
  datatype Nearby =
    | MissingCoords
    | BadCoords
    | NoneInRange(radius: real)
    | Found(entries: seq<Near>, radius: real, at: Coords)

  /** `float(params.get('radius', 10))`, falling back to 10 on a parse error. */
  function RadiusOf(qradius: Param): (r: real)
    ensures qradius.Numeric? ==> r == qradius.v
    ensures !qradius.Numeric? ==> r == 10.0
  {
    FloatOr(qradius, 10.0)
  }

  // ---------------------------------------------------------------------
  // Stores within the radius
  // ---------------------------------------------------------------------

  /** A store the query considers: active, with both coordinates stored. */
  predicate Located(m: Merchant)
  {
    m.active && m.lat.Some? && m.lng.Some?
  }

  function StorePos(m: Merchant): Coords
    requires m.lat.Some? && m.lng.Some?
  {
    Coords(m.lat.value, m.lng.value)
  }

  /** The loop's decision for the store with id `id`. */
  function StoreEntry(merchants: map<int, Merchant>, id: int, c: Coords, radius: real,
                      dist: (Coords, Coords) -> real): (r: Option<Near>)
    ensures r.Some? <==> id in merchants && Located(merchants[id]) && dist(c, StorePos(merchants[id])) <= radius
    ensures r.Some? ==> r.value == Near(id, dist(c, StorePos(merchants[id])))
  {
    if id in merchants && Located(merchants[id]) && dist(c, StorePos(merchants[id])) <= radius
    then Some(Near(id, dist(c, StorePos(merchants[id]))))
    else None
  }

  /** `nearby_merchants` before sorting, in the query's order `queue`. */
  function InRange(merchants: map<int, Merchant>, queue: seq<int>, c: Coords, radius: real,
                   dist: (Coords, Coords) -> real): seq<Near>
    decreases |queue|
  {
    if |queue| == 0 then []
    else
      var here := StoreEntry(merchants, queue[0], c, radius, dist);
      (if here.Some? then [here.value] else []) + InRange(merchants, queue[1..], c, radius, dist)
  }

  /** A store is in the unsorted list exactly when the query yields it, it
    * is active with both coordinates, and it lies within the radius; its
    * distance is the one computed from the customer's position. */
  lemma {:induction false} InRangeMembers(merchants: map<int, Merchant>, queue: seq<int>, c: Coords, radius: real,
                                          dist: (Coords, Coords) -> real, e: Near)
    ensures e in InRange(merchants, queue, c, radius, dist) <==>
      && e.id in queue && e.id in merchants && Located(merchants[e.id])
      && e.distance == dist(c, StorePos(merchants[e.id])) && e.distance <= radius
    decreases |queue|
  {
    if |queue| > 0 {
      InRangeMembers(merchants, queue[1..], c, radius, dist, e);
      assert queue == [queue[0]] + queue[1..];
    }
  }

  function NearKey(e: Near): Ext
  {
    Fin(e.distance)
  }

  /** The stores within the radius, nearest first; ties keep the query's order. */
  function NearbyStores(merchants: map<int, Merchant>, queue: seq<int>, c: Coords, radius: real,
                        dist: (Coords, Coords) -> real): seq<Near>
  {
    SortBy(InRange(merchants, queue, c, radius, dist), NearKey)
  }

  /** `MerchantViewSet.nearby`, as a function of the stores and the query. */
  function MerchantsNearbyOf(merchants: map<int, Merchant>, queue: seq<int>, lat: Param, lng: Param, qradius: Param,
                             dist: (Coords, Coords) -> real): Nearby
  {
    match ReadCustomerPos(lat, lng)
    case PosMissing => MissingCoords
    case PosInvalid => BadCoords
    case PosAt(c) => Found(NearbyStores(merchants, queue, c, RadiusOf(qradius), dist), RadiusOf(qradius), c)
  }

  /** The store loop: `queue` is the store ids in the order the query yields them. */
  method StoresInRange(merchants: map<int, Merchant>, queue: seq<int>, c: Coords, radius: real,
                       dist: (Coords, Coords) -> real) returns (near: seq<Near>)
    ensures near == InRange(merchants, queue, c, radius, dist)
  {
    near := [];
    var i := 0;
    while i < |queue|
      invariant 0 <= i <= |queue|
      invariant near + InRange(merchants, queue[i..], c, radius, dist) == InRange(merchants, queue, c, radius, dist)
    {
      var id := queue[i];
      assert queue[i..][1..] == queue[i + 1..];
      if id in merchants {
        var m := merchants[id];
        if m.active && m.lat.Some? && m.lng.Some? {
          var d := dist(c, Coords(m.lat.value, m.lng.value));
          if d <= radius {
            near := near + [Near(id, d)];
          }
        }
      }
      i := i + 1;
    }
    assert queue[i..] == [];
    assert near + InRange(merchants, [], c, radius, dist) == near;
  }

  /** `MerchantViewSet.nearby`. */
  method MerchantsNearby(merchants: map<int, Merchant>, queue: seq<int>, lat: Param, lng: Param, qradius: Param,
                         dist: (Coords, Coords) -> real) returns (r: Nearby)
    ensures r == MerchantsNearbyOf(merchants, queue, lat, lng, qradius, dist)
  {
    var radius := RadiusOf(qradius);
    var pos := ReadCustomerPos(lat, lng);
    if pos.PosMissing? {
      return MissingCoords;
    }
    if pos.PosInvalid? {
      return BadCoords;
    }
    var near := StoresInRange(merchants, queue, pos.c, radius, dist);
    near := SortBy(near, NearKey);
    r := Found(near, radius, pos.c);
  }

  /** What the store endpoint promises: 400 exactly when a coordinate is
    * missing or not a number; otherwise every listed store is active, has
    * coordinates, lies within the radius (10 unless a number is given) and
    * was yielded by the query, every such store is listed, nearer stores
    * come first, and stores at the same distance keep the query's order. */
  lemma MerchantsNearbyFacts(merchants: map<int, Merchant>, queue: seq<int>, lat: Param, lng: Param, qradius: Param,
                             dist: (Coords, Coords) -> real)
    ensures var r := MerchantsNearbyOf(merchants, queue, lat, lng, qradius, dist);
      (r.MissingCoords? || r.BadCoords?) <==> !(lat.Numeric? && lng.Numeric?)
    ensures !MerchantsNearbyOf(merchants, queue, lat, lng, qradius, dist).NoneInRange?
    ensures var r := MerchantsNearbyOf(merchants, queue, lat, lng, qradius, dist);
      r.Found? ==> r.radius == (if qradius.Numeric? then qradius.v else 10.0) && r.at == Coords(lat.v, lng.v)
    ensures var r := MerchantsNearbyOf(merchants, queue, lat, lng, qradius, dist);
      r.Found? ==> forall e :: e in r.entries <==>
        && e.id in queue && e.id in merchants && Located(merchants[e.id])
        && e.distance == dist(r.at, StorePos(merchants[e.id])) && e.distance <= r.radius
    ensures var r := MerchantsNearbyOf(merchants, queue, lat, lng, qradius, dist);
      r.Found? ==> forall i, j :: 0 <= i < j < |r.entries| ==> r.entries[i].distance <= r.entries[j].distance
    ensures var r := MerchantsNearbyOf(merchants, queue, lat, lng, qradius, dist);
      r.Found? ==> forall k :: WithKey(r.entries, NearKey, k) == WithKey(InRange(merchants, queue, r.at, r.radius, dist), NearKey, k)
  {
    var r := MerchantsNearbyOf(merchants, queue, lat, lng, qradius, dist);
    if r.Found? {
      var near := InRange(merchants, queue, r.at, r.radius, dist);
      SortByFacts(near, NearKey);
      forall e ensures e in r.entries <==> e in near {
        SortByMembers(near, NearKey, e);
      }
      forall e ensures e in near <==>
        && e.id in queue && e.id in merchants && Located(merchants[e.id])
        && e.distance == dist(r.at, StorePos(merchants[e.id])) && e.distance <= r.radius
      {
        InRangeMembers(merchants, queue, r.at, r.radius, dist, e);
      }
      forall i, j | 0 <= i < j < |r.entries| ensures r.entries[i].distance <= r.entries[j].distance {
        assert Le(NearKey(r.entries[i]), NearKey(r.entries[j]));
      }
    }
  }

  // ---------------------------------------------------------------------
  // Dishes of the stores within the radius
  // ---------------------------------------------------------------------

  /** `[m.id for m in nearby_merchants]`. */
  function Ids(near: seq<Near>): (r: seq<int>)
    ensures |r| == |near|
    ensures forall i :: 0 <= i < |near| ==> r[i] == near[i].id
  {
    seq(|near|, i requires 0 <= i < |near| => near[i].id)
  }

  /** `{m.id: m.distance_km for m in nearby_merchants}`: a later entry for
    * the same id overwrites an earlier one. */
  function DistanceMap(near: seq<Near>): map<int, real>
    decreases |near|
  {
    if |near| == 0 then map[]
    else DistanceMap(near[..|near| - 1])[near[|near| - 1].id := near[|near| - 1].distance]
  }

  /** The map has a key for every listed id, and each value is the distance
    * of some entry with that id. */
  lemma {:induction false} DistanceMapFacts(near: seq<Near>)
    ensures forall k :: k in DistanceMap(near) <==> k in Ids(near)
    ensures forall k :: k in DistanceMap(near) ==> Near(k, DistanceMap(near)[k]) in near
    decreases |near|
  {
    if |near| > 0 {
      var init, last := near[..|near| - 1], near[|near| - 1];
      assert near == init + [last];
      DistanceMapFacts(init);
      forall k ensures k in Ids(near) <==> k in Ids(init) || k == last.id {
        if k in Ids(near) {
          var i :| 0 <= i < |near| && Ids(near)[i] == k;
          if i < |init| {
            assert Ids(init)[i] == k;
          }
        }
        if k in Ids(init) {
          var i :| 0 <= i < |init| && Ids(init)[i] == k;
          assert Ids(near)[i] == k;
        }
        if k == last.id {
          assert Ids(near)[|near| - 1] == k;
        }
      }
    }
  }

  /** The distance a dish is listed with: its store's distance
    * (`.get(merchant_id, 0)`) rounded to two places by `round2`, Python's
    * `round(x, 2)`. */
  function DishDistance(dmap: map<int, real>, m: int, round2: real -> real): real
  {
    round2(if m in dmap then dmap[m] else 0.0)
  }

  /** The dish loop's decision: an available dish of a store in `ids`, with
    * that store's rounded distance. */
  function DishEntry(items: map<int, MenuItem>, id: int, ids: seq<int>, dmap: map<int, real>,
                     round2: real -> real): (r: Option<Near>)
    ensures r.Some? <==> id in items && items[id].merchant in ids && items[id].available
  {
    if id in items && items[id].merchant in ids && items[id].available
    then Some(Near(id, DishDistance(dmap, items[id].merchant, round2)))
    else None
  }

  /** The dishes before sorting, in the query's order `queue`. */
  function Dishes(items: map<int, MenuItem>, queue: seq<int>, ids: seq<int>, dmap: map<int, real>,
                  round2: real -> real): seq<Near>
    decreases |queue|
  {
    if |queue| == 0 then []
    else
      var here := DishEntry(items, queue[0], ids, dmap, round2);
      (if here.Some? then [here.value] else []) + Dishes(items, queue[1..], ids, dmap, round2)
  }

  lemma {:induction false} DishesMembers(items: map<int, MenuItem>, queue: seq<int>, ids: seq<int>, dmap: map<int, real>,
                                         round2: real -> real, e: Near)
    ensures e in Dishes(items, queue, ids, dmap, round2) <==>
      && e.id in queue && e.id in items && items[e.id].merchant in ids && items[e.id].available
      && e.distance == DishDistance(dmap, items[e.id].merchant, round2)
    decreases |queue|
  {
    if |queue| > 0 {
      DishesMembers(items, queue[1..], ids, dmap, round2, e);
      assert queue == [queue[0]] + queue[1..];
    }
  }

  /** `MenuViewSet.nearby`, as a function of the tables and the query;
    * `storeQueue` and `dishQueue` are the ids in the order the two queries
    * yield them. The dishes are sorted, stably, on their rounded distance. */
  function MenuNearbyOf(merchants: map<int, Merchant>, storeQueue: seq<int>, items: map<int, MenuItem>,
                        dishQueue: seq<int>, lat: Param, lng: Param, qradius: Param,
                        dist: (Coords, Coords) -> real, round2: real -> real): Nearby
  {
    match ReadCustomerPos(lat, lng)
    case PosMissing => MissingCoords
    case PosInvalid => BadCoords
    case PosAt(c) =>
      var near := InRange(merchants, storeQueue, c, RadiusOf(qradius), dist);
      if |near| == 0 then NoneInRange(RadiusOf(qradius))
      else Found(SortBy(Dishes(items, dishQueue, Ids(near), DistanceMap(near), round2), NearKey), RadiusOf(qradius), c)
  }

  /** The dish loop. */
  method DishesInRange(items: map<int, MenuItem>, queue: seq<int>, ids: seq<int>, dmap: map<int, real>,
                       round2: real -> real)
    returns (found: seq<Near>)
    ensures found == Dishes(items, queue, ids, dmap, round2)
  {
    found := [];
    var i := 0;
    while i < |queue|
      invariant 0 <= i <= |queue|
      invariant found + Dishes(items, queue[i..], ids, dmap, round2) == Dishes(items, queue, ids, dmap, round2)
    {
      var id := queue[i];
      assert queue[i..][1..] == queue[i + 1..];
      if id in items && items[id].merchant in ids && items[id].available {
        var m := items[id].merchant;
        found := found + [Near(id, round2(if m in dmap then dmap[m] else 0.0))];
      }
      i := i + 1;
    }
    assert queue[i..] == [];
    assert found + Dishes(items, [], ids, dmap, round2) == found;
  }

  /** `MenuViewSet.nearby`. */
  method MenuNearby(merchants: map<int, Merchant>, storeQueue: seq<int>, items: map<int, MenuItem>,
                    dishQueue: seq<int>, lat: Param, lng: Param, qradius: Param,
                    dist: (Coords, Coords) -> real, round2: real -> real) returns (r: Nearby)
    ensures r == MenuNearbyOf(merchants, storeQueue, items, dishQueue, lat, lng, qradius, dist, round2)
  {
    var radius := RadiusOf(qradius);
    var pos := ReadCustomerPos(lat, lng);
    if pos.PosMissing? {
      return MissingCoords;
    }
    if pos.PosInvalid? {
      return BadCoords;
    }
    var near := StoresInRange(merchants, storeQueue, pos.c, radius, dist);
    if |near| == 0 {
      return NoneInRange(radius);
    }
    var found := DishesInRange(items, dishQueue, Ids(near), DistanceMap(near), round2);
    found := SortBy(found, NearKey);
    r := Found(found, radius, pos.c);
  }

  /** What the dish endpoint promises: 400 exactly when a coordinate is
    * missing or not a number; the "no store" answer exactly when no store
    * the query yields lies within the radius; otherwise the listed dishes
    * are exactly the available dishes, among those the query yields, of
    * the stores within the radius, each with its store's distance rounded,
    * in increasing rounded distance. */
  lemma MenuNearbyFacts(merchants: map<int, Merchant>, storeQueue: seq<int>, items: map<int, MenuItem>,
                        dishQueue: seq<int>, lat: Param, lng: Param, qradius: Param,
                        dist: (Coords, Coords) -> real, round2: real -> real)
    ensures var r := MenuNearbyOf(merchants, storeQueue, items, dishQueue, lat, lng, qradius, dist, round2);
      (r.MissingCoords? || r.BadCoords?) <==> !(lat.Numeric? && lng.Numeric?)
    ensures var r := MenuNearbyOf(merchants, storeQueue, items, dishQueue, lat, lng, qradius, dist, round2);
      r.NoneInRange? <==> (lat.Numeric? && lng.Numeric? &&
        forall m :: m in storeQueue && m in merchants && Located(merchants[m]) ==>
          dist(Coords(lat.v, lng.v), StorePos(merchants[m])) > RadiusOf(qradius))
    ensures var r := MenuNearbyOf(merchants, storeQueue, items, dishQueue, lat, lng, qradius, dist, round2);
      r.Found? ==> r.radius == RadiusOf(qradius) && r.at == Coords(lat.v, lng.v)
    ensures var r := MenuNearbyOf(merchants, storeQueue, items, dishQueue, lat, lng, qradius, dist, round2);
      r.Found? ==> forall e :: e in r.entries <==>
        && e.id in dishQueue && e.id in items && items[e.id].available
        && var m := items[e.id].merchant;
           m in storeQueue && m in merchants && Located(merchants[m])
           && dist(r.at, StorePos(merchants[m])) <= r.radius && e.distance == round2(dist(r.at, StorePos(merchants[m])))
    ensures var r := MenuNearbyOf(merchants, storeQueue, items, dishQueue, lat, lng, qradius, dist, round2);
      r.Found? ==> forall i, j :: 0 <= i < j < |r.entries| ==> r.entries[i].distance <= r.entries[j].distance
  {
    var r := MenuNearbyOf(merchants, storeQueue, items, dishQueue, lat, lng, qradius, dist, round2);
    if lat.Numeric? && lng.Numeric? {
      var c := Coords(lat.v, lng.v);
      var radius := RadiusOf(qradius);
      var near := InRange(merchants, storeQueue, c, radius, dist);
      if |near| == 0 {
        forall m | m in storeQueue && m in merchants && Located(merchants[m])
          ensures dist(c, StorePos(merchants[m])) > radius
        {
          InRangeMembers(merchants, storeQueue, c, radius, dist, Near(m, dist(c, StorePos(merchants[m]))));
        }
      } else {
        var e0 := near[0];
        InRangeMembers(merchants, storeQueue, c, radius, dist, e0);
        var ids, dmap := Ids(near), DistanceMap(near);
        var found := Dishes(items, dishQueue, ids, dmap, round2);
        DistanceMapFacts(near);
        SortByFacts(found, NearKey);
        forall e ensures e in r.entries <==>
          && e.id in dishQueue && e.id in items && items[e.id].available
          && var m := items[e.id].merchant;
             m in storeQueue && m in merchants && Located(merchants[m])
             && dist(c, StorePos(merchants[m])) <= radius && e.distance == round2(dist(c, StorePos(merchants[m])))
        {
          SortByMembers(found, NearKey, e);
          DishesMembers(items, dishQueue, ids, dmap, round2, e);
          if e.id in items {
            var m := items[e.id].merchant;
            if m in ids {
              assert m in dmap;
              InRangeMembers(merchants, storeQueue, c, radius, dist, Near(m, dmap[m]));
            }
            if m in storeQueue && m in merchants && Located(merchants[m]) && dist(c, StorePos(merchants[m])) <= radius {
              InRangeMembers(merchants, storeQueue, c, radius, dist, Near(m, dist(c, StorePos(merchants[m]))));
              var i :| 0 <= i < |near| && near[i] == Near(m, dist(c, StorePos(merchants[m])));
              assert Ids(near)[i] == m;
            }
          }
        }
        forall i, j | 0 <= i < j < |r.entries| ensures r.entries[i].distance <= r.entries[j].distance {
          assert Le(NearKey(r.entries[i]), NearKey(r.entries[j]));
        }
      }
    }
  }

  // ---------------------------------------------------------------------
  // Which dishes a caller sees
  // ---------------------------------------------------------------------

  /** The caller: anonymous, or a signed-in user with or without a profile. */
  datatype Viewer = Anonymous | SignedIn(user: int, profileRole: Option<string>)

  /** Store staff: a signed-in user whose profile says merchant or admin. */
  predicate IsStaff(v: Viewer)
  {
    v.SignedIn? && v.profileRole.Some? && v.profileRole.value in {"merchant", "admin"}
  }

  /** `MenuViewSet.get_queryset`: `queue` is every dish id in the table's order. */
  function VisibleItems(merchants: map<int, Merchant>, members: Members, items: map<int, MenuItem>,
                        queue: seq<int>, v: Viewer): seq<int>
  {
    if IsStaff(v) then
      var mine := UserMerchants(merchants, members, v.user);
      if |mine| > 0 then Filter(queue, id => id in items && items[id].merchant in mine) else []
    else Filter(queue, id => id in items && items[id].available)
  }

  /** Staff see every dish, hidden ones included, of the stores they own or
    * belong to (so nothing when they have none, whatever their role); any
    * other caller sees exactly the available dishes. */
  lemma VisibleItemsMembers(merchants: map<int, Merchant>, members: Members, items: map<int, MenuItem>,
                            queue: seq<int>, v: Viewer, id: int)
    ensures id in VisibleItems(merchants, members, items, queue, v) <==>
      && id in queue && id in items
      && (if IsStaff(v) then
            var m := items[id].merchant;
            m in merchants && (merchants[m].owner == v.user || (m, v.user) in members)
          else items[id].available)
  {
    var r := VisibleItems(merchants, members, items, queue, v);
    if IsStaff(v) {
      var mine := UserMerchants(merchants, members, v.user);
      var p := (i: int) => i in items && items[i].merchant in mine;
      if |mine| > 0 {
        if id in queue && p(id) {
          FilterKeeps(queue, p, id);
        }
      } else {
        assert mine == {};
      }
    } else {
      var p := (i: int) => i in items && items[i].available;
      if id in queue && p(id) {
        FilterKeeps(queue, p, id);
      }
    }
  }
}
