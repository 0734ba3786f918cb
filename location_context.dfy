// The location context (frontend/src/context/LocationContext.tsx): the
// address shown next to the position, kept in local storage, and filled in
// by reverse geocoding when the position has none. The geocoder's reply is
// a parameter; the address is formatted the Vietnamese way, house number
// first and province last.
module LocationContext {
  import opened Wrappers
  import opened Text

  /** The `address` object of a reverse-geocoding reply. */
  datatype ReverseAddress = ReverseAddress(
    houseNumber: Option<string>,
    road: Option<string>,
    quarter: Option<string>,
    neighbourhood: Option<string>,
    suburb: Option<string>,
    cityDistrict: Option<string>,
    district: Option<string>,
    city: Option<string>,
    town: Option<string>,
    village: Option<string>,
    state: Option<string>)

  /** The request failed or its body did not parse, or the body with its
    * optional `address` and `display_name`. */
  datatype ReverseReply = RequestFailed | Body(address: Option<ReverseAddress>, displayName: Option<string>)

  // ---------------------------------------------------------------------
  // Labels
  // ---------------------------------------------------------------------

  lemma LowerWithPrefix(p: string, lp: string, s: string)
    requires Lower(p) == lp
    ensures Contains(Lower(p + s), lp)
  {
    LowerAppend(p, s);
    ContainsAt(Lower(p + s), lp, 0);
  }

  /** A road is called "Đường …" unless its name already says road. */
  function RoadLabel(road: string): (r: string)
    ensures r == road || r == "Đường " + road
    ensures Contains(Lower(r), "đường") || Contains(Lower(r), "street")
  {
    if !Contains(Lower(road), "đường") && !Contains(Lower(road), "street") then
      assert Lower("Đường ") == "đường " + "";
      LowerWithPrefix("Đường ", "đường ", road);
      ContainsAt(Lower("Đường " + road), "đường", 0);
      "Đường " + road
    else road
  }

  /** A ward is called "Phường …" unless it already says ward or commune. */
  function WardLabel(ward: string): (r: string)
    ensures r == ward || r == "Phường " + ward
    ensures Contains(Lower(r), "phường") || Contains(Lower(r), "xã")
  {
    if !Contains(Lower(ward), "phường") && !Contains(Lower(ward), "xã") then
      LowerWithPrefix("Phường ", "phường ", ward);
      ContainsAt(Lower("Phường " + ward), "phường", 0);
      "Phường " + ward
    else ward
  }

  /** A district is "Quận …" in a city or town and "Huyện …" elsewhere,
    * unless it already says which. */
  function DistrictLabel(district: string, urban: bool): (r: string)
    ensures r == district || r == (if urban then "Quận " else "Huyện ") + district
    ensures Contains(Lower(r), "quận") || Contains(Lower(r), "huyện")
  {
    if !Contains(Lower(district), "quận") && !Contains(Lower(district), "huyện") then
      if urban then
        LowerWithPrefix("Quận ", "quận ", district);
        ContainsAt(Lower("Quận " + district), "quận", 0);
        "Quận " + district
      else
        LowerWithPrefix("Huyện ", "huyện ", district);
        ContainsAt(Lower("Huyện " + district), "huyện", 0);
        "Huyện " + district
    else district
  }

  /** Labelling a label again changes nothing. */
  lemma LabelsIdempotent(road: string, ward: string, district: string, u1: bool, u2: bool)
    ensures RoadLabel(RoadLabel(road)) == RoadLabel(road)
    ensures WardLabel(WardLabel(ward)) == WardLabel(ward)
    ensures DistrictLabel(DistrictLabel(district, u1), u2) == DistrictLabel(district, u1)
  {
  }

  // ---------------------------------------------------------------------
  // Formatting
  // ---------------------------------------------------------------------

  function HousePiece(a: ReverseAddress): Option<string>
  {
    if Truthy(a.houseNumber) then a.houseNumber else None
  }

  function RoadPiece(a: ReverseAddress): Option<string>
  {
    if Truthy(a.road) then Some(RoadLabel(a.road.value)) else None
  }

  function Ward(a: ReverseAddress): Option<string>
  {
    Or(Or(a.quarter, a.neighbourhood), a.suburb)
  }

  function WardPiece(a: ReverseAddress): Option<string>
  {
    var w := Ward(a);
    if Truthy(w) then Some(WardLabel(w.value)) else None
  }

  function DistrictPiece(a: ReverseAddress): Option<string>
  {
    var d := Or(a.cityDistrict, a.district);
    if Truthy(d) then Some(DistrictLabel(d.value, Truthy(Or(a.city, a.town)))) else None
  }

  function CityPiece(a: ReverseAddress): Option<string>
  {
    var c := Or(Or(a.city, a.town), a.village);
    if Truthy(c) then c else if Truthy(a.state) then a.state else None
  }

  function Opt(piece: Option<string>): seq<string>
  {
    if piece.Some? then [piece.value] else []
  }

  /** The present pieces in the order the address reads: house number,
    * road, ward, district, then settlement or province. */
  function Parts(a: ReverseAddress): seq<string>
  {
    Opt(HousePiece(a)) + Opt(RoadPiece(a)) + Opt(WardPiece(a)) + Opt(DistrictPiece(a)) + Opt(CityPiece(a))
  }

  /** `parts`, built by successive pushes. */
  method FormatParts(a: ReverseAddress) returns (parts: seq<string>)
    ensures parts == Parts(a)
  {
    parts := [];
    if Truthy(a.houseNumber) {
      parts := parts + [a.houseNumber.value];
    }
    assert parts == Opt(HousePiece(a));
    if Truthy(a.road) {
      var roadName := a.road.value;
      if !Contains(Lower(roadName), "đường") && !Contains(Lower(roadName), "street") {
        roadName := "Đường " + roadName;
      }
      parts := parts + [roadName];
    }
    assert parts == Opt(HousePiece(a)) + Opt(RoadPiece(a));
    if Truthy(Or(Or(a.quarter, a.neighbourhood), a.suburb)) {
      var ward := Or(Or(a.quarter, a.neighbourhood), a.suburb).value;
      if !Contains(Lower(ward), "phường") && !Contains(Lower(ward), "xã") {
        parts := parts + ["Phường " + ward];
      } else {
        parts := parts + [ward];
      }
    }
    assert parts == Opt(HousePiece(a)) + Opt(RoadPiece(a)) + Opt(WardPiece(a));
    if Truthy(Or(a.cityDistrict, a.district)) {
      var district := Or(a.cityDistrict, a.district).value;
      if !Contains(Lower(district), "quận") && !Contains(Lower(district), "huyện") {
        if Truthy(Or(a.city, a.town)) {
          parts := parts + ["Quận " + district];
        } else {
          parts := parts + ["Huyện " + district];
        }
      } else {
        parts := parts + [district];
      }
    }
    assert parts == Opt(HousePiece(a)) + Opt(RoadPiece(a)) + Opt(WardPiece(a)) + Opt(DistrictPiece(a));
    if Truthy(Or(Or(a.city, a.town), a.village)) {
      parts := parts + [Or(Or(a.city, a.town), a.village).value];
    } else if Truthy(a.state) {
      parts := parts + [a.state.value];
    }
  }

  /** There are no parts iff the reply names no house number, road, ward,
    * district, settlement or province. */
  lemma NoPartsIff(a: ReverseAddress)
    ensures Parts(a) == [] <==>
      !Truthy(a.houseNumber) && !Truthy(a.road) && !Truthy(Ward(a)) && !Truthy(Or(a.cityDistrict, a.district))
      && !Truthy(Or(Or(a.city, a.town), a.village)) && !Truthy(a.state)
  {
  }

  /** The reply's address pieces are labelled: the road says road, the ward
    * says ward or commune, the district says district. */
  lemma PiecesLabelled(a: ReverseAddress)
    ensures RoadPiece(a).Some? ==> Contains(Lower(RoadPiece(a).value), "đường") || Contains(Lower(RoadPiece(a).value), "street")
    ensures WardPiece(a).Some? ==> Contains(Lower(WardPiece(a).value), "phường") || Contains(Lower(WardPiece(a).value), "xã")
    ensures DistrictPiece(a).Some? ==> Contains(Lower(DistrictPiece(a).value), "quận") || Contains(Lower(DistrictPiece(a).value), "huyện")
  {
  }

  /** The first three comma pieces of `display_name`, rejoined with ", " and
    * trimmed; the pieces keep their own spaces. */
  function DisplayFallback(displayName: string): string
  {
    var pieces := Split(displayName, ',');
    Strip(Join(pieces[..if |pieces| < 3 then |pieces| else 3], ", "))
  }

  lemma {:induction false} SplitWithoutSeparator(s: string, sep: char)
    requires sep !in s
    ensures Split(s, sep) == [s]
    decreases |s|
  {
    if |s| > 0 {
      assert sep !in s[1..];
      SplitWithoutSeparator(s[1..], sep);
      assert s == [s[0]] + s[1..];
    }
  }

  /** A display name without commas is used whole, trimmed. */
  lemma DisplayFallbackSingle(displayName: string)
    requires ',' !in displayName
    ensures DisplayFallback(displayName) == Strip(displayName)
  {
    SplitWithoutSeparator(displayName, ',');
  }

  /** The address a reply yields, if any: the joined parts, else the display
    * name's fallback, else nothing. */
  function Formatted(reply: ReverseReply): Option<string>
  {
    match reply
    case RequestFailed => None
    case Body(address, displayName) =>
      if address.None? then None
      else
        var parts := Parts(address.value);
        if |parts| == 0 && Truthy(displayName) then Some(DisplayFallback(displayName.value))
        else if |parts| > 0 then Some(Join(parts, ", "))
        else None
  }

  /** A reply without `address` fails even when it has a display name; one
    * whose address has parts never uses the display name. */
  lemma FormattedCases(reply: ReverseReply)
    ensures reply.Body? && reply.address.None? ==> Formatted(reply).None?
    ensures reply.Body? && reply.address.Some? && Parts(reply.address.value) != [] ==>
      Formatted(reply) == Some(Join(Parts(reply.address.value), ", "))
    ensures Formatted(reply).None? <==>
      reply.RequestFailed? || reply.address.None?
      || (Parts(reply.address.value) == [] && !Truthy(reply.displayName))
  {
  }

  // ---------------------------------------------------------------------
  // The context's state
  // ---------------------------------------------------------------------

  /** The `user_address` key of local storage. */
  class AddressStorage {
    var userAddress: Option<string>

    constructor(userAddress: Option<string>)
      ensures this.userAddress == userAddress
    {
      this.userAddress := userAddress;
    }
  }

  /** What the persistence effect leaves in storage for an address. */
  function Stored(address: Option<string>): (r: Option<string>)
    ensures Truthy(address) <==> r.Some?
    ensures r.Some? ==> r == address
  {
    if Truthy(address) then address else None
  }

  /** Reverse geocoding runs with a position, no address and no earlier
    * failure. */
  predicate ShouldFetch(hasLocation: bool, address: Option<string>, failed: bool)
  {
    hasLocation && !Truthy(address) && !failed
  }

  class AddressContext {
    var address: Option<string>
    var fetching: bool
    var failed: bool

    /** The storage key mirrors the address. */
    predicate Persisted(storage: AddressStorage)
      reads this, storage
    {
      storage.userAddress == Stored(address)
    }

    constructor()
      ensures address.None? && !fetching && !failed
    {
      address, fetching, failed := None, false, false;
    }

    /** The persistence effect. */
    method SetAddress(storage: AddressStorage, a: Option<string>)
      modifies this, storage
      ensures address == a && fetching == old(fetching) && failed == old(failed)
      ensures Persisted(storage)
    {
      address := a;
      if Truthy(a) {
        storage.userAddress := a;
      } else {
        storage.userAddress := None;
      }
    }

    /** On mount a stored address is shown; the persistence effect then
      * writes back what is shown. */
    method Mount(storage: AddressStorage)
      modifies this, storage
      ensures address == (if Truthy(old(storage.userAddress)) then old(storage.userAddress) else old(address))
      ensures fetching == old(fetching) && failed == old(failed)
      ensures Persisted(storage)
    {
      var saved := storage.userAddress;
      if Truthy(saved) {
        SetAddress(storage, saved);
      } else {
        SetAddress(storage, address);
      }
    }

    /** A new position clears the failure mark. */
    method LocationChanged(hasLocation: bool)
      modifies this
      ensures address == old(address) && fetching == old(fetching)
      ensures failed == (old(failed) && !hasLocation)
    {
      if hasLocation {
        failed := false;
      }
    }

    /** The reverse-geocoding effect, given the geocoder's reply. */
    method FetchAddress(storage: AddressStorage, hasLocation: bool, reply: ReverseReply)
      requires Persisted(storage)
      modifies this, storage
      ensures Persisted(storage) && !fetching
      ensures !ShouldFetch(hasLocation, old(address), old(failed)) ==>
        address == old(address) && failed == old(failed) && storage.userAddress == old(storage.userAddress)
      ensures ShouldFetch(hasLocation, old(address), old(failed)) ==>
        (Formatted(reply).Some? ==> address == Formatted(reply) && !failed)
        && (Formatted(reply).None? ==> address == old(address) && failed)
    {
      if !(hasLocation && !Truthy(address) && !failed) {
        fetching := false;
        return;
      }
      fetching := true;
      failed := false;
      var result: Option<string> := None;
      match reply {
        case RequestFailed =>
        case Body(a, displayName) =>
          if a.Some? {
            var parts := FormatParts(a.value);
            if |parts| == 0 && Truthy(displayName) {
              result := Some(DisplayFallback(displayName.value));
            } else if |parts| > 0 {
              result := Some(Join(parts, ", "));
            }
          }
      }
      if result.Some? {
        SetAddress(storage, result);
      } else {
        failed := true;
      }
      fetching := false;
    }
  }

  /** An address already shown, typed in or stored, is never replaced by
    * reverse geocoding. */
  lemma ShownAddressKept(hasLocation: bool, address: Option<string>, failed: bool)
    requires Truthy(address)
    ensures !ShouldFetch(hasLocation, address, failed)
  {
  }
}
