// The location panel (frontend/src/components/LocationPermission.tsx): an
// address typed by the customer is turned into coordinates by trying a list
// of ever simpler search strings, with fixed Biên Hòa coordinates as the
// last resort; the panel warns when the position lies outside Biên Hòa and
// offers to force-set it there. The geocoder is a parameter.
module LocationPermission {
  import opened Wrappers
  import opened Text
  import opened Lists
  import opened LocationHook
  import opened LocationContext

  const BienHoaLatitude := 11.318067
  const BienHoaLongitude := 106.050355
  const BienHoaAddress := "Gần KCN Hố Nai, Biên Hòa, Đồng Nai"

  /** The search strings tried for any address in the Biên Hòa area. */
  const BienHoaNames := ["Biên Hòa, Đồng Nai", "Phường Long Bình, Biên Hòa, Đồng Nai", "Bien Hoa, Dong Nai", "Bien Hoa"]
  /** ...and, for Hố Nai, two more. */
  const HoNaiNames := ["Hố Nai, Biên Hòa, Đồng Nai", "Ho Nai, Bien Hoa, Dong Nai"]

  /** The lower-cased address names Biên Hòa, Hố Nai or Đồng Nai, with or
    * without diacritics. */
  predicate MentionsBienHoa(lower: string)
  {
    Contains(lower, "biên hòa") || Contains(lower, "bien hoa") || Contains(lower, "hố nai")
    || Contains(lower, "ho nai") || Contains(lower, "dong nai") || Contains(lower, "đồng nai")
  }

  predicate MentionsHoNai(lower: string)
  {
    Contains(lower, "hố nai") || Contains(lower, "ho nai")
  }

  // ---------------------------------------------------------------------
  // The candidate list
  // ---------------------------------------------------------------------

  /** The first comma at or after `i`, or `|s|`. */
  function FirstComma(s: string, i: nat): (j: nat)
    requires i <= |s|
    ensures i <= j <= |s|
    ensures j < |s| ==> s[j] == ','
    ensures forall m :: i <= m < j ==> s[m] != ','
    decreases |s| - i
  {
    if i == |s| || s[i] == ',' then i else FirstComma(s, i + 1)
  }

  /** The first comma from `i` on is at `j` when `j` holds one and nothing
    * between does. */
  lemma FirstCommaAt(s: string, i: nat, j: nat)
    requires i <= j < |s| && s[j] == ','
    requires forall m :: i <= m < j ==> s[m] != ','
    ensures FirstComma(s, i) == j
  {
  }

  // The address with a leading house number removed, then trimmed: a run of
  // digits, a slash, anything up to the first comma, the comma and the
  // blanks after it (as in "12/3 Hẻm 5, ") go.
  function WithoutHouseNumber(s: string): string
  {
    var k := LeadingDigits(s);
    if 0 < k < |s| && s[k] == '/' then
      var c := FirstComma(s, k + 1);
      if c < |s| then Strip(s[c + 1..]) else Strip(s)
    else Strip(s)
  }

  /** "digits/anything-without-comma," followed by the rest becomes the
    * trimmed rest. */
  lemma {:induction false} HouseNumberDropped(d: string, x: string, rest: string)
    requires |d| > 0 && forall i :: 0 <= i < |d| ==> IsDigit(d[i])
    requires ',' !in x
    ensures WithoutHouseNumber(d + "/" + x + "," + rest) == Strip(rest)
  {
    var t := "/" + x + "," + rest;
    var s := d + t;
    assert d + "/" + x + "," + rest == s;
    LeadingDigitsOfRun(d, t);
    assert s[|d|] == t[0] == '/';
    var j := |d| + 1 + |x|;
    assert s[j] == t[1 + |x|] == ',';
    assert forall m :: |d| + 1 <= m < j ==> s[m] == x[m - |d| - 1];
    FirstCommaAt(s, |d| + 1, j);
    assert s[j + 1..] == rest;
  }

  /** An address that does not start with a digit is only trimmed. */
  lemma NoHouseNumberKept(s: string)
    requires s == [] || !IsDigit(s[0])
    ensures WithoutHouseNumber(s) == Strip(s)
  {
  }

  /** `s.split(',').map(p => p.trim()).filter(p => p)`. */
  function CommaParts(s: string): (r: seq<string>)
    ensures forall p :: p in r ==> p != ""
  {
    var pieces := Split(s, ',');
    Filter(seq(|pieces|, i requires 0 <= i < |pieces| => Strip(pieces[i])), (p: string) => p != "")
  }

  /** The search strings in the order they are pushed, from the trimmed
    * input, the input without its house number and the comma parts: the
    * trimmed input; the one without house number, when that differs; all
    * parts but the first, when there are more than two; the last two, when
    * there are more than one. */
  function Simplified(trimmed: string, withoutNumber: string, parts: seq<string>): seq<string>
  {
    [trimmed]
    + (if withoutNumber != trimmed then [withoutNumber] else [])
    + (if |parts| > 2 then [Join(parts[1..], ", ")] else [])
    + (if |parts| > 1 then [Join(parts[|parts| - 2..], ", ")] else [])
  }

  /** The fixed names added for an address in the Biên Hòa area. */
  function AreaNames(lower: string): seq<string>
  {
    if MentionsBienHoa(lower) then BienHoaNames + (if MentionsHoNai(lower) then HoNaiNames else []) else []
  }

  function Candidates(s: string): seq<string>
  {
    Simplified(Strip(s), WithoutHouseNumber(s), CommaParts(s)) + AreaNames(Lower(s))
  }

  /** `addressesToTry`, built by successive pushes. */
  method BuildCandidates(addressText: string) returns (addressesToTry: seq<string>)
    ensures addressesToTry == Candidates(addressText)
  {
    var trimmed := Strip(addressText);
    var addressWithoutNumber := WithoutHouseNumber(addressText);
    var parts := CommaParts(addressText);
    addressesToTry := PushSimplified(trimmed, addressWithoutNumber, parts);
    addressesToTry := PushAreaNames(addressesToTry, Lower(addressText));
  }

  method PushSimplified(trimmed: string, addressWithoutNumber: string, parts: seq<string>) returns (addressesToTry: seq<string>)
    ensures addressesToTry == Simplified(trimmed, addressWithoutNumber, parts)
  {
    addressesToTry := [trimmed];
    if addressWithoutNumber != trimmed {
      addressesToTry := addressesToTry + [addressWithoutNumber];
    }
    if |parts| > 2 {
      addressesToTry := addressesToTry + [Join(parts[1..], ", ")];
    }
    if |parts| > 1 {
      addressesToTry := addressesToTry + [Join(parts[|parts| - 2..], ", ")];
    }
  }

  method PushAreaNames(before: seq<string>, addressLower: string) returns (addressesToTry: seq<string>)
    ensures addressesToTry == before + AreaNames(addressLower)
  {
    addressesToTry := before;
    if MentionsBienHoa(addressLower) {
      addressesToTry := addressesToTry + BienHoaNames;
      if MentionsHoNai(addressLower) {
        addressesToTry := addressesToTry + HoNaiNames;
      }
    }
  }

  /** The list starts with the trimmed input; an address in the Biên Hòa
    * area brings the fixed Biên Hòa names, and one in Hố Nai the Hố Nai
    * names as well. */
  lemma CandidatesFacts(s: string)
    ensures Candidates(s)[0] == Strip(s)
    ensures MentionsBienHoa(Lower(s)) ==> forall n :: n in BienHoaNames ==> n in Candidates(s)
    ensures MentionsHoNai(Lower(s)) ==> forall n :: n in HoNaiNames ==> n in Candidates(s)
    ensures |Candidates(s)| <= 10
  {
  }

  // ---------------------------------------------------------------------
  // De-duplication
  // ---------------------------------------------------------------------

  predicate Distinct(s: seq<string>)
  {
    forall i, j :: 0 <= i < j < |s| ==> s[i] != s[j]
  }

  /** `Array.from(new Set(s))`: first occurrences, in order. */
  function Dedupe(s: seq<string>): (r: seq<string>)
    ensures forall x :: x in r <==> x in s
    decreases |s|
  {
    if |s| == 0 then []
    else
      var d := Dedupe(s[..|s| - 1]);
      if s[|s| - 1] in d then d else d + [s[|s| - 1]]
  }

  lemma {:induction false} DedupeDistinct(s: seq<string>)
    ensures Distinct(Dedupe(s))
    decreases |s|
  {
    if |s| > 0 {
      DedupeDistinct(s[..|s| - 1]);
    }
  }

  lemma {:induction false} DedupeKeepsFirst(s: seq<string>)
    requires |s| > 0
    ensures |Dedupe(s)| > 0 && Dedupe(s)[0] == s[0]
    decreases |s|
  {
    if |s| > 1 {
      DedupeKeepsFirst(s[..|s| - 1]);
    } else {
      assert Dedupe(s[..0]) == [];
    }
  }

  /** A list without repeats is left as it is. */
  lemma {:induction false} DedupeOfDistinct(s: seq<string>)
    requires Distinct(s)
    ensures Dedupe(s) == s
    decreases |s|
  {
    if |s| > 0 {
      var init := s[..|s| - 1];
      DedupeOfDistinct(init);
      assert s[|s| - 1] !in init;
      assert s == init + [s[|s| - 1]];
    }
  }

  /** The loop the `Set` performs: each candidate is kept unless seen. */
  method UniqueCandidates(candidates: seq<string>) returns (unique: seq<string>)
    ensures unique == Dedupe(candidates)
  {
    var seen: set<string> := {};
    unique := [];
    var i := 0;
    while i < |candidates|
      invariant 0 <= i <= |candidates|
      invariant unique == Dedupe(candidates[..i])
      invariant forall x :: x in seen <==> x in unique
    {
      assert candidates[..i + 1][..i] == candidates[..i];
      if candidates[i] !in seen {
        seen := seen + {candidates[i]};
        unique := unique + [candidates[i]];
      }
      i := i + 1;
    }
    assert candidates[..i] == candidates;
  }

  // ---------------------------------------------------------------------
  // Trying the candidates
  // ---------------------------------------------------------------------

  /** The geocoder's reply for one search string: a failed request, no
    * result, or the first result's parsed coordinates (`None` for NaN). */
  datatype SearchReply = SearchFailed | NoResults | Result(latitude: Option<real>, longitude: Option<real>)

  predicate Usable(r: SearchReply)
  {
    r.Result? && r.latitude.Some? && r.longitude.Some?
  }

  datatype Hit = Hit(candidate: string, latitude: real, longitude: real)

  /** The first candidate whose search gives numeric coordinates. */
  function FirstHit(candidates: seq<string>, search: string -> SearchReply): Option<Hit>
  {
    if |candidates| == 0 then None
    else
      var r := search(candidates[0]);
      if Usable(r) then Some(Hit(candidates[0], r.latitude.value, r.longitude.value))
      else FirstHit(candidates[1..], search)
  }

  /** There is a hit iff some candidate's search is usable, and the hit is
    * the first such candidate. */
  lemma {:induction false} FirstHitIsFirst(candidates: seq<string>, search: string -> SearchReply)
    ensures FirstHit(candidates, search).None? <==> forall i :: 0 <= i < |candidates| ==> !Usable(search(candidates[i]))
    ensures FirstHit(candidates, search).Some? ==>
      exists i :: 0 <= i < |candidates| && Usable(search(candidates[i]))
        && (forall j :: 0 <= j < i ==> !Usable(search(candidates[j])))
        && FirstHit(candidates, search).value
           == Hit(candidates[i], search(candidates[i]).latitude.value, search(candidates[i]).longitude.value)
    decreases |candidates|
  {
    if |candidates| > 0 {
      var tail := candidates[1..];
      FirstHitIsFirst(tail, search);
      assert forall i :: 1 <= i < |candidates| ==> candidates[i] == tail[i - 1];
      if !Usable(search(candidates[0])) && FirstHit(tail, search).Some? {
        var i :| 0 <= i < |tail| && Usable(search(tail[i]))
          && (forall j :: 0 <= j < i ==> !Usable(search(tail[j])))
          && FirstHit(tail, search).value == Hit(tail[i], search(tail[i]).latitude.value, search(tail[i]).longitude.value);
        assert candidates[i + 1] == tail[i];
      }
    }
  }

  /** The `for` loop with its early return. */
  method TryCandidates(candidates: seq<string>, search: string -> SearchReply) returns (hit: Option<Hit>)
    ensures hit == FirstHit(candidates, search)
  {
    var i := 0;
    while i < |candidates|
      invariant 0 <= i <= |candidates|
      invariant FirstHit(candidates[i..], search) == FirstHit(candidates, search)
    {
      assert candidates[i..][1..] == candidates[i + 1..];
      var r := search(candidates[i]);
      if r.Result? && r.latitude.Some? && r.longitude.Some? {
        return Some(Hit(candidates[i], r.latitude.value, r.longitude.value));
      }
      i := i + 1;
    }
    hit := None;
  }

  // ---------------------------------------------------------------------
  // Geocoding an address
  // ---------------------------------------------------------------------

  datatype Geocoded = Located(latitude: real, longitude: real) | NotFound

  /** The first usable candidate's coordinates; failing that, the default
    * Biên Hòa coordinates for an address in that area; else nothing. */
  function Geocode(addressText: string, search: string -> SearchReply): Geocoded
  {
    var hit := FirstHit(Dedupe(Candidates(addressText)), search);
    if hit.Some? then Located(hit.value.latitude, hit.value.longitude)
    else if MentionsBienHoa(Lower(addressText)) then Located(BienHoaLatitude, BienHoaLongitude)
    else NotFound
  }

  /** An address in the Biên Hòa area is always located; any other is
    * located iff one of its candidates is. */
  lemma GeocodeFound(addressText: string, search: string -> SearchReply)
    ensures MentionsBienHoa(Lower(addressText)) ==> Geocode(addressText, search).Located?
    ensures Geocode(addressText, search).NotFound? <==>
      !MentionsBienHoa(Lower(addressText))
      && forall c :: c in Candidates(addressText) ==> !Usable(search(c))
  {
    var u := Dedupe(Candidates(addressText));
    FirstHitIsFirst(u, search);
    assert (forall i :: 0 <= i < |u| ==> !Usable(search(u[i]))) <==> (forall c :: c in u ==> !Usable(search(c)));
  }

  /** The trimmed input is searched first: when it is found, its
    * coordinates are used. */
  lemma GeocodeTriesInputFirst(addressText: string, search: string -> SearchReply)
    requires Usable(search(Strip(addressText)))
    ensures Geocode(addressText, search)
      == Located(search(Strip(addressText)).latitude.value, search(Strip(addressText)).longitude.value)
  {
    CandidatesFacts(addressText);
    DedupeKeepsFirst(Candidates(addressText));
  }

  /** `geocodeAddress`: on success the position is stored and shown without
    * accuracy, stamped now, and the trimmed input becomes the address. */
  method GeocodeAddress(hook: Hook, storage: Storage, context: AddressContext, addressStorage: AddressStorage,
                        addressText: string, search: string -> SearchReply, now: int) returns (ok: bool)
    modifies hook, storage, context, addressStorage
    ensures ok <==> Geocode(addressText, search).Located?
    ensures ok ==>
      var g := Geocode(addressText, search);
      var d := LocationData(g.latitude, g.longitude, None, Some(now), false);
      hook.location == Some(d) && storage.Contents() == old(storage.Contents()).(userLocation := Some(Saved(d)))
      && context.address == Some(Strip(addressText)) && context.Persisted(addressStorage)
    ensures !ok ==>
      hook.State() == old(hook.State()) && storage.Contents() == old(storage.Contents())
      && context.address == old(context.address) && addressStorage.userAddress == old(addressStorage.userAddress)
  {
    var candidates := BuildCandidates(addressText);
    var unique := UniqueCandidates(candidates);
    var hit := TryCandidates(unique, search);
    var latitude, longitude;
    if hit.Some? {
      latitude, longitude := hit.value.latitude, hit.value.longitude;
    } else if MentionsBienHoa(Lower(addressText)) {
      latitude, longitude := BienHoaLatitude, BienHoaLongitude;
    } else {
      return false;
    }
    storage.userLocation := Some(Saved(LocationData(latitude, longitude, None, Some(now), false)));
    hook.SetLocationManual(storage, latitude, longitude, now);
    if hit.Some? {
      context.SetAddress(addressStorage, None);
    }
    context.SetAddress(addressStorage, Some(Strip(addressText)));
    ok := true;
  }

  // ---------------------------------------------------------------------
  // The Biên Hòa box and force-setting
  // ---------------------------------------------------------------------

  predicate InBienHoa(latitude: real, longitude: real)
  {
    11.0 <= latitude < 11.5 && 106.0 <= longitude < 106.2
  }

  /** The panel shows either the red warning, labelled "(TP.HCM)" south of
    * latitude 11, or the green confirmation. */
  datatype Notice = Warning(southOfBienHoa: bool) | Confirmed

  function BoxNotice(latitude: real, longitude: real): Notice
  {
    if !InBienHoa(latitude, longitude) then Warning(latitude < 11.0) else Confirmed
  }

  /** Exactly one of the two notices shows; the default coordinates, used by
    * force-setting and by the geocoding fallback, get the confirmation. */
  lemma NoticeFacts(latitude: real, longitude: real)
    ensures BoxNotice(latitude, longitude).Warning? <==> !InBienHoa(latitude, longitude)
    ensures BoxNotice(latitude, longitude).Warning? && BoxNotice(latitude, longitude).southOfBienHoa ==> latitude < 11.0
    ensures BoxNotice(BienHoaLatitude, BienHoaLongitude) == Confirmed
  {
  }

  /** `forceSetBienHoaLocation`: the position saved with `forceSet: true`
    * is at once rewritten by `setLocation` without it, so only the force
    * flag records the choice. */
  method ForceSetBienHoa(hook: Hook, storage: Storage, context: AddressContext, addressStorage: AddressStorage, now: int)
    modifies hook, storage, context, addressStorage
    ensures hook.location == Some(LocationData(BienHoaLatitude, BienHoaLongitude, None, Some(now), false))
    ensures storage.Contents() == Store(Some(Saved(hook.location.value)), Some("true"))
    ensures context.address == Some(BienHoaAddress) && context.Persisted(addressStorage)
  {
    storage.userLocation := Some(Saved(LocationData(BienHoaLatitude, BienHoaLongitude, None, Some(now), true)));
    addressStorage.userAddress := Some(BienHoaAddress);
    storage.forceFlag := Some("true");
    hook.SetLocationManual(storage, BienHoaLatitude, BienHoaLongitude, now);
    context.SetAddress(addressStorage, Some(BienHoaAddress));
  }

  /** What force-setting stores is loaded on every later visit, however old,
    * and no non-forced request replaces it with a GPS fix. */
  lemma ForceSetSticks(st: HookState, api: PermissionsApi, now: int, later: int,
                       h: bool, events: seq<GpsEvent>, fallback: Settled, t: int)
    ensures var d := LocationData(BienHoaLatitude, BienHoaLongitude, None, Some(now), false);
      var store := Store(Some(Saved(d)), Some("true"));
      Mount(st, store, true, api, later).0.location == Some(d)
      && Request(st, store, false, h, events, fallback, t) == (st.(location := Some(d), permission := Granted), store)
  {
  }
}
