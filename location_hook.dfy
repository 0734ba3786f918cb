// The browser-location hook (frontend/src/hooks/useLocation.ts): loading a
// saved position on mount, asking the GPS for a few fixes and keeping the
// most accurate one, and the manual setters. The hook's React state is a
// class; the two local-storage keys it reads and writes are another, shared
// with the components that write them directly.
module LocationHook {
  import opened Wrappers
  import opened Lists

  /** A saved position is trusted for one hour. */
  const MaxAge := 3600000
  /** Sampling stops after this many fixes... */
  const MaxFixes := 5
  /** ...or at the first fix more accurate than this many metres. */
  const GoodAccuracy := 30.0

  const NotSupported := "Trình duyệt của bạn không hỗ trợ định vị địa lý"
  const DeniedText := "Bạn đã từ chối quyền truy cập vị trí"
  const UnavailableText := "Không thể xác định vị trí của bạn"
  const TimeoutText := "Yêu cầu vị trí đã hết thời gian chờ"
  const GenericText := "Không thể lấy vị trí của bạn"
  const DeniedHint := "Bạn đã từ chối quyền truy cập vị trí. Vui lòng cấp quyền trong cài đặt trình duyệt."

  /** A position as the application stores it. `forceSet` is true when the
    * stored JSON object carries `forceSet: true`; timestamps are
    * milliseconds since the epoch. */
  datatype LocationData = LocationData(
    latitude: real,
    longitude: real,
    accuracy: Option<real>,
    timestamp: Option<int>,
    forceSet: bool)

  /** The `user_location` key: JSON that parses, or text that does not. */
  datatype Saved = Unreadable | Saved(data: LocationData)

  datatype Permission = Unknown | Prompt | Granted | Denied

  /** The storage keys the hook touches: `user_location` and
    * `location_force_set`. */
  datatype Store = Store(userLocation: Option<Saved>, forceFlag: Option<string>)

  datatype HookState = HookState(location: Option<LocationData>, loading: bool, error: Option<string>, permission: Permission)

  // ---------------------------------------------------------------------
  // Mount: trusting a saved position
  // ---------------------------------------------------------------------

  predicate ForceSet(d: LocationData, flag: Option<string>)
  {
    d.forceSet || flag == Some("true")
  }

  /** A present, non-zero timestamp less than an hour old. */
  predicate Fresh(d: LocationData, now: int)
  {
    d.timestamp.Some? && d.timestamp.value != 0 && now - d.timestamp.value < MaxAge
  }

  predicate Trusted(d: LocationData, flag: Option<string>, now: int)
  {
    ForceSet(d, flag) || Fresh(d, now)
  }

  /** What the Permissions API does: missing, answering a state, or failing. */
  datatype PermissionsApi = NoApi | Answers(state: Permission) | QueryFails

  /** The mount effect once the permission query has settled. Without
    * geolocation the hook gives up at once. Otherwise a trusted saved
    * position is loaded and marks the permission granted, an untrusted one
    * is removed with the force flag, and an unreadable one is left alone;
    * the query's answer, which arrives after all this, has the last word. */
  function Mount(st: HookState, store: Store, hasGeolocation: bool, api: PermissionsApi, now: int): (HookState, Store)
  {
    if !hasGeolocation then (st.(permission := Denied, error := Some(NotSupported)), store)
    else
      var p0 := if api.NoApi? then Prompt else st.permission;
      var (st1, store1) :=
        match store.userLocation
        case Some(Saved(d)) =>
          if Trusted(d, store.forceFlag, now) then
            (st.(location := Some(d),
                 permission := if ForceSet(d, store.forceFlag) || (d.timestamp.Some? && d.timestamp.value != 0) then Granted else p0),
             store)
          else (st.(permission := p0), Store(None, None))
        case _ => (st.(permission := p0), store);
      var p := match api
        case Answers(s) => s
        case QueryFails => Prompt
        case NoApi => st1.permission;
      (st1.(permission := p), store1)
  }

  /** A saved position is loaded iff it is force-set or fresh; otherwise both
    * keys are removed. Loading it always marks the permission granted when
    * there is no Permissions API: the inner test repeats the outer one. */
  lemma {:induction false} MountTrust(st: HookState, store: Store, api: PermissionsApi, now: int, d: LocationData)
    requires store.userLocation == Some(Saved(d))
    ensures var (st2, store2) := Mount(st, store, true, api, now);
      (Trusted(d, store.forceFlag, now) ==> st2.location == Some(d) && store2 == store)
      && (!Trusted(d, store.forceFlag, now) ==> st2.location == st.location && store2 == Store(None, None))
      && (Trusted(d, store.forceFlag, now) && api.NoApi? ==> st2.permission == Granted)
  {
  }

  /** When the Permissions API answers, its answer replaces the "granted"
    * that loading a saved position set. */
  lemma MountQueryWins(st: HookState, store: Store, s: Permission, now: int)
    ensures Mount(st, store, true, Answers(s), now).0.permission == s
  {
  }

  // ---------------------------------------------------------------------
  // Sampling the GPS
  // ---------------------------------------------------------------------

  datatype Sample = Sample(latitude: real, longitude: real, accuracy: Option<real>)

  /** What the watch reports, in order: a fix or an error code. */
  datatype GpsEvent = Fix(sample: Sample) | Failure(code: int)

  datatype Settled = Resolved(sample: Sample) | Rejected(code: int)

  /** `coords.accuracy || Infinity`. */
  function Acc(s: Sample): Ext
  {
    if s.accuracy.None? || s.accuracy.value == 0.0 then Inf else Fin(s.accuracy.value)
  }

  /** `a < b` on numbers that may be infinite. */
  predicate Below(a: Ext, b: Ext)
  {
    a.Fin? && (b.Inf? || a.r < b.r)
  }

  function AccOf(best: Option<Sample>): Ext
  {
    if best.None? then Inf else Acc(best.value)
  }

  /** The fixes among the events, in order. */
  function Fixes(events: seq<GpsEvent>): (r: seq<Sample>)
    ensures |r| <= |events|
  {
    if |events| == 0 then []
    else Fixes(events[..|events| - 1]) + (if events[|events| - 1].Fix? then [events[|events| - 1].sample] else [])
  }

  /** The earliest fix of least finite accuracy; none when no fix has one. */
  function BestOf(samples: seq<Sample>): Option<Sample>
  {
    if |samples| == 0 then None
    else
      var b := BestOf(samples[..|samples| - 1]);
      var last := samples[|samples| - 1];
      if Below(Acc(last), AccOf(b)) then Some(last) else b
  }

  /** The kept fix is one of the fixes, and no fix is more accurate. */
  lemma {:induction false} BestOfMinimal(samples: seq<Sample>)
    ensures var b := BestOf(samples);
      (b.Some? ==> b.value in samples && Acc(b.value).Fin?)
      && (forall s :: s in samples ==> Le(AccOf(b), Acc(s)))
    decreases |samples|
  {
    if |samples| > 0 {
      var init := samples[..|samples| - 1];
      BestOfMinimal(init);
      assert samples == init + [samples[|samples| - 1]];
    }
  }

  /** The watch stops at an error, at a fix better than 30 m, or at the
    * fifth fix. */
  predicate StopsAt(events: seq<GpsEvent>, i: int)
    requires 0 <= i < |events|
  {
    match events[i]
    case Failure(_) => true
    case Fix(s) => Below(Acc(s), Fin(GoodAccuracy)) || |Fixes(events[..i + 1])| >= MaxFixes
  }

  /** The first stopping event at or after `i`, or `|events|` if none. */
  function FirstStop(events: seq<GpsEvent>, i: nat): (k: nat)
    requires i <= |events|
    ensures i <= k <= |events|
    ensures k < |events| ==> StopsAt(events, k)
    ensures forall j :: i <= j < k ==> !StopsAt(events, j)
    decreases |events| - i
  {
    if i == |events| then i else if StopsAt(events, i) then i else FirstStop(events, i + 1)
  }

  /** How the sampling promise settles: at the first stopping event, with
    * the best fix so far (or, at a fix, that fix if none had an accuracy);
    * an error with no best fix rejects; if the watch never stops, the
    * timeout uses the best fix or falls back to a single reading. */
  function Outcome(events: seq<GpsEvent>, fallback: Settled): Settled
  {
    var k := FirstStop(events, 0);
    if k == |events| then
      var b := BestOf(Fixes(events));
      if b.Some? then Resolved(b.value) else fallback
    else match events[k]
      case Fix(s) =>
        var b := BestOf(Fixes(events[..k + 1]));
        Resolved(if b.Some? then b.value else s)
      case Failure(c) =>
        var b := BestOf(Fixes(events[..k]));
        if b.Some? then Resolved(b.value) else Rejected(c)
  }

  /** The watch callbacks as they run: the closure variables `bestPosition`,
    * `bestAccuracy` and `positionCount` updated fix by fix. */
  method Sampling(events: seq<GpsEvent>, fallback: Settled) returns (r: Settled)
    ensures r == Outcome(events, fallback)
  {
    var best: Option<Sample> := None;
    var bestAccuracy: Ext := Inf;
    var count := 0;
    var i := 0;
    while i < |events|
      invariant 0 <= i <= |events|
      invariant best == BestOf(Fixes(events[..i])) && bestAccuracy == AccOf(best)
      invariant count == |Fixes(events[..i])|
      invariant forall j :: 0 <= j < i ==> !StopsAt(events, j)
    {
      assert events[..i + 1][..i] == events[..i];
      match events[i] {
      case Fix(s) =>
        assert Fixes(events[..i + 1]) == Fixes(events[..i]) + [s];
        count := count + 1;
        var accuracy := Acc(s);
        if Below(accuracy, bestAccuracy) {
          best := Some(s);
          bestAccuracy := accuracy;
        }
        if Below(accuracy, Fin(GoodAccuracy)) || count >= MaxFixes {
          assert StopsAt(events, i);
          assert FirstStop(events, 0) == i;
          return Resolved(if best.Some? then best.value else s);
        }
      case Failure(c) =>
        assert StopsAt(events, i);
        assert FirstStop(events, 0) == i;
        return if best.Some? then Resolved(best.value) else Rejected(c);
      }
      i := i + 1;
    }
    assert events[..i] == events;
    r := if best.Some? then Resolved(best.value) else fallback;
  }

  /** Events after the watch stopped change nothing. */
  lemma {:induction false} LaterEventsIgnored(events: seq<GpsEvent>, extra: seq<GpsEvent>, fallback: Settled)
    requires FirstStop(events, 0) < |events|
    ensures Outcome(events + extra, fallback) == Outcome(events, fallback)
  {
    var all := events + extra;
    var k := FirstStop(events, 0);
    forall j | 0 <= j <= k ensures all[..j + 1] == events[..j + 1] && StopsAt(all, j) == StopsAt(events, j) {
      assert all[..j + 1] == events[..j + 1];
    }
    assert FirstStop(all, 0) == k;
    assert all[..k] == events[..k];
  }

  /** A resolved fix taken from the watch is at least as accurate as every
    * fix seen before the watch stopped. */
  lemma ErrorAfterFixResolves(events: seq<GpsEvent>, fallback: Settled, k: nat)
    requires k < |events| && events[k].Failure? && FirstStop(events, 0) == k
    requires exists s :: s in Fixes(events[..k]) && Acc(s).Fin?
    ensures Outcome(events, fallback).Resolved?
    ensures forall s :: s in Fixes(events[..k]) ==> Le(Acc(Outcome(events, fallback).sample), Acc(s))
  {
    var s :| s in Fixes(events[..k]) && Acc(s).Fin?;
    BestOfMinimal(Fixes(events[..k]));
  }

  /** An error before any fix with an accuracy rejects, even after fixes
    * that lacked one. */
  lemma ErrorWithoutAccuracyRejects(events: seq<GpsEvent>, fallback: Settled, k: nat)
    requires k < |events| && events[k].Failure? && FirstStop(events, 0) == k
    requires forall s :: s in Fixes(events[..k]) ==> Acc(s) == Inf
    ensures Outcome(events, fallback) == Rejected(events[k].code)
  {
    BestOfMinimal(Fixes(events[..k]));
  }

  // ---------------------------------------------------------------------
  // Requesting a position
  // ---------------------------------------------------------------------

  function ErrorText(code: int): string
  {
    if code == 1 then DeniedText
    else if code == 2 then UnavailableText
    else if code == 3 then TimeoutText
    else GenericText
  }

  /** `requestPermission(forceRefresh)`: a non-forced request while the force
    * flag is set only reloads the saved position; a forced one first clears
    * the flag, the saved position and the state; then the GPS is sampled and
    * a fix is stored with the current time. */
  function Request(st: HookState, store: Store, force: bool, hasGeolocation: bool,
                   events: seq<GpsEvent>, fallback: Settled, now: int): (HookState, Store)
  {
    if !force && store.forceFlag == Some("true") then
      match store.userLocation
      case Some(Saved(d)) => (st.(location := Some(d), permission := Granted), store)
      case _ => (st, store)
    else
      var st1 := if force then st.(location := None) else st;
      var store1 := if force then Store(None, None) else store;
      if !hasGeolocation then (st1.(error := Some(NotSupported), permission := Denied), store1)
      else match Outcome(events, fallback)
        case Resolved(s) =>
          var d := LocationData(s.latitude, s.longitude, s.accuracy, Some(now), false);
          (st1.(location := Some(d), permission := Granted, error := None, loading := false),
           store1.(userLocation := Some(Saved(d))))
        case Rejected(c) =>
          (st1.(error := Some(ErrorText(c)), permission := if c == 1 then Denied else st1.permission, loading := false),
           store1)
  }

  /** While the force flag is set, a non-forced request does no sampling: its
    * result does not depend on the GPS at all. */
  lemma ForceFlagBlocksGps(st: HookState, store: Store, h1: bool, h2: bool, e1: seq<GpsEvent>, e2: seq<GpsEvent>,
                           f1: Settled, f2: Settled, n1: int, n2: int)
    requires store.forceFlag == Some("true")
    ensures Request(st, store, false, h1, e1, f1, n1) == Request(st, store, false, h2, e2, f2, n2)
    ensures Request(st, store, false, h1, e1, f1, n1).1 == store
  {
  }

  /** A forced refresh always removes the force flag, and the saved position
    * is either removed or replaced by the new fix. */
  lemma ForcedRefreshClears(st: HookState, store: Store, h: bool, events: seq<GpsEvent>, fallback: Settled, now: int)
    ensures var (st2, store2) := Request(st, store, true, h, events, fallback, now);
      store2.forceFlag.None?
      && (store2.userLocation.None? || store2.userLocation == Some(Saved(st2.location.value)))
  {
  }

  /** Error code 1 marks the permission denied; other codes keep it. */
  lemma RejectedPermission(st: HookState, store: Store, force: bool, events: seq<GpsEvent>, fallback: Settled, now: int)
    requires force || store.forceFlag != Some("true")
    requires Outcome(events, fallback).Rejected?
    ensures var c := Outcome(events, fallback).code;
      var st2 := Request(st, store, force, true, events, fallback, now).0;
      st2.error == Some(ErrorText(c)) && (st2.permission == Denied <==> c == 1 || st.permission == Denied)
  {
  }

  /** A fix the hook stores is trusted when the page is reloaded within the
    * hour, and the reload shows the same position. */
  lemma StoredFixReloads(st: HookState, store: Store, force: bool, events: seq<GpsEvent>, fallback: Settled,
                         now: int, later: int, reloaded: HookState, api: PermissionsApi)
    requires force || store.forceFlag != Some("true")
    requires Outcome(events, fallback).Resolved?
    requires now != 0 && now <= later < now + MaxAge
    ensures var (st2, store2) := Request(st, store, force, true, events, fallback, now);
      Mount(reloaded, store2, true, api, later).0.location == st2.location && st2.location.Some?
  {
  }

  /** `getCurrentLocation`: refused with a hint once the permission is
    * denied, otherwise a request. */
  function GetCurrentLocation(st: HookState, store: Store, force: bool, hasGeolocation: bool,
                              events: seq<GpsEvent>, fallback: Settled, now: int): (HookState, Store)
  {
    if st.permission == Denied then (st.(error := Some(DeniedHint)), store)
    else Request(st, store, force, hasGeolocation, events, fallback, now)
  }

  /** With the permission denied, only the error message changes. */
  lemma GetCurrentLocationDenied(st: HookState, store: Store, force: bool, h: bool, events: seq<GpsEvent>,
                                 fallback: Settled, now: int)
    requires st.permission == Denied
    ensures var (st2, store2) := GetCurrentLocation(st, store, force, h, events, fallback, now);
      st2 == st.(error := Some(DeniedHint)) && store2 == store
  {
  }

  /** `clearLocation` forgets the position but keeps the force flag, so a
    * later non-forced request finds nothing to reload and does no sampling:
    * the position stays empty. */
  lemma ClearKeepsFlag(st: HookState, store: Store, h: bool, events: seq<GpsEvent>, fallback: Settled, now: int)
    requires store.forceFlag == Some("true")
    ensures var cleared := (st.(location := None), store.(userLocation := None));
      Request(cleared.0, cleared.1, false, h, events, fallback, now).0.location.None?
  {
  }

  // ---------------------------------------------------------------------
  // The hook's state
  // ---------------------------------------------------------------------

  /** The `user_location` and `location_force_set` keys of local storage. */
  class Storage {
    var userLocation: Option<Saved>
    var forceFlag: Option<string>

    constructor(userLocation: Option<Saved>, forceFlag: Option<string>)
      ensures this.userLocation == userLocation && this.forceFlag == forceFlag
    {
      this.userLocation := userLocation;
      this.forceFlag := forceFlag;
    }

    function Contents(): Store
      reads this
    {
      Store(userLocation, forceFlag)
    }
  }

  class Hook {
    var location: Option<LocationData>
    var loading: bool
    var error: Option<string>
    var permission: Permission

    constructor()
      ensures State() == HookState(None, false, None, Unknown)
    {
      location, loading, error, permission := None, false, None, Unknown;
    }

    function State(): HookState
      reads this
    {
      HookState(location, loading, error, permission)
    }

    method Assign(st: HookState)
      modifies this
      ensures State() == st
    {
      location, loading, error, permission := st.location, st.loading, st.error, st.permission;
    }

    method OnMount(storage: Storage, hasGeolocation: bool, api: PermissionsApi, now: int)
      modifies this, storage
      ensures (State(), storage.Contents()) == Mount(old(State()), old(storage.Contents()), hasGeolocation, api, now)
    {
      if !hasGeolocation {
        permission := Denied;
        error := Some(NotSupported);
        return;
      }
      if api.NoApi? {
        permission := Prompt;
      }
      var p0 := permission;
      if storage.userLocation.Some? && storage.userLocation.value.Saved? {
        var d := storage.userLocation.value.data;
        var isForceSet := d.forceSet || storage.forceFlag == Some("true");
        if isForceSet || (d.timestamp.Some? && d.timestamp.value != 0 && now - d.timestamp.value < MaxAge) {
          location := Some(d);
          if isForceSet || (d.timestamp.Some? && d.timestamp.value != 0) {
            permission := Granted;
          }
        } else {
          storage.userLocation := None;
          storage.forceFlag := None;
        }
      }
      match api {
      case Answers(s) => permission := s;
      case QueryFails => permission := Prompt;
      case NoApi =>
      }
    }

    method RequestPermission(storage: Storage, force: bool, hasGeolocation: bool,
                             events: seq<GpsEvent>, fallback: Settled, now: int)
      modifies this, storage
      ensures (State(), storage.Contents())
        == Request(old(State()), old(storage.Contents()), force, hasGeolocation, events, fallback, now)
    {
      if !force {
        if storage.forceFlag == Some("true") {
          if storage.userLocation.Some? && storage.userLocation.value.Saved? {
            location := Some(storage.userLocation.value.data);
            permission := Granted;
          }
          return;
        }
      } else {
        storage.forceFlag := None;
        storage.userLocation := None;
        location := None;
      }
      if !hasGeolocation {
        error := Some(NotSupported);
        permission := Denied;
        return;
      }
      loading := true;
      error := None;
      var settled := Sampling(events, fallback);
      match settled {
      case Resolved(s) =>
        var d := LocationData(s.latitude, s.longitude, s.accuracy, Some(now), false);
        location := Some(d);
        permission := Granted;
        storage.userLocation := Some(Saved(d));
      case Rejected(c) =>
        if c == 1 {
          permission := Denied;
        }
        error := Some(ErrorText(c));
      }
      loading := false;
    }

    method GetCurrent(storage: Storage, force: bool, hasGeolocation: bool,
                      events: seq<GpsEvent>, fallback: Settled, now: int)
      modifies this, storage
      ensures (State(), storage.Contents())
        == GetCurrentLocation(old(State()), old(storage.Contents()), force, hasGeolocation, events, fallback, now)
    {
      if permission == Denied {
        error := Some(DeniedHint);
        return;
      }
      RequestPermission(storage, force, hasGeolocation, events, fallback, now);
    }

    /** `clearLocation`: the force flag stays. */
    method ClearLocation(storage: Storage)
      modifies this, storage
      ensures State() == old(State()).(location := None)
      ensures storage.Contents() == old(storage.Contents()).(userLocation := None)
    {
      location := None;
      storage.userLocation := None;
    }

    /** `setLocation(lat, lng)`: a position without accuracy, stamped now,
      * stored and shown. */
    method SetLocationManual(storage: Storage, latitude: real, longitude: real, now: int)
      modifies this, storage
      ensures location == Some(LocationData(latitude, longitude, None, Some(now), false))
      ensures loading == old(loading) && error == old(error) && permission == old(permission)
      ensures storage.Contents() == old(storage.Contents()).(userLocation := Some(Saved(location.value)))
    {
      var d := LocationData(latitude, longitude, None, Some(now), false);
      storage.userLocation := Some(Saved(d));
      location := Some(d);
    }
  }
}
