/**
 * The invisible component that asks the browser for the user's position once,
 * puts it into the URL, and then watches for better fixes until one is precise
 * enough. Its three refs (`hasRequested`, `watchId`, `lastCoords`) are fields
 * of a class; the router calls, the `clearWatch` calls and the position
 * requests it makes are recorded in fields too.
 */
module LocationHandler {
  import opened Js
  import opened UrlParams
  import opened LocationStorage

  /** A position report: `coords.latitude`, `coords.longitude`, `coords.accuracy`. */
  datatype Coords = Coords(lat: real, lon: real, accuracy: Option<real>)

  /** A `router.push` (replace false) or `router.replace` (replace true) to the current path with `query`. */
  datatype Navigation = Navigation(query: seq<Pair>, replace: bool)

  // ----- the refinement rule ------------------------------------------------------

  /**
   * `hasImprovedAccuracy`: the update reports an accuracy, and there is no
   * previous accuracy or the new one is better by more than 10 m.
   */
  predicate HasImprovedAccuracy(last: Option<Coords>, newAccuracy: Option<real>) {
    && newAccuracy.Some?
    && (last.None? || last.value.accuracy.None? || newAccuracy.value < last.value.accuracy.value - 10.0)
  }

  /** Metres per degree in the movement estimate. */
  const METERS_PER_DEGREE: real := 111139.0

  /**
   * `distanceMoved > 20`: infinite without a previous fix; otherwise
   * `sqrt(dlat^2 + dlon^2) * 111139 > 20`, stated without the root as
   * `(dlat^2 + dlon^2) * 111139^2 > 400`, which is the same over the reals.
   */
  predicate MovedFar(last: Option<Coords>, newLat: real, newLon: real) {
    || last.None?
    || ((newLat - last.value.lat) * (newLat - last.value.lat) + (newLon - last.value.lon) * (newLon - last.value.lon))
       * METERS_PER_DEGREE * METERS_PER_DEGREE > 400.0
  }

  /** An update is taken when its accuracy improved or it moved more than 20 m. */
  function AcceptsUpdate(last: Option<Coords>, update: Coords): (r: bool)
    ensures last.None? ==> r
    ensures MovedFar(last, update.lat, update.lon) ==> r
    ensures HasImprovedAccuracy(last, update.accuracy) ==> r
    ensures last.Some? && update.accuracy.None? ==> (r <==> MovedFar(last, update.lat, update.lon))
    ensures !MovedFar(last, update.lat, update.lon) ==> (r <==> HasImprovedAccuracy(last, update.accuracy))
  {
    HasImprovedAccuracy(last, update.accuracy) || MovedFar(last, update.lat, update.lon)
  }

  /** A report identical to the last fix is never taken. */
  lemma SameFixRejected(c: Coords)
    ensures !AcceptsUpdate(Some(c), c)
  {
    assert (c.lat - c.lat) * (c.lat - c.lat) + (c.lon - c.lon) * (c.lon - c.lon) == 0.0;
  }

  /** A report within 20 m whose accuracy is not better by more than 10 m is not taken. */
  lemma SmallChangeRejected(c: Coords, update: Coords)
    requires c.accuracy.Some? && update.accuracy.Some? && update.accuracy.value >= c.accuracy.value - 10.0
    requires !MovedFar(Some(c), update.lat, update.lon)
    ensures !AcceptsUpdate(Some(c), update)
  {
  }

  /** Watching stops after a taken update that is accurate to 30 m or better. */
  predicate ShouldStopWatching(update: Coords) {
    update.accuracy.Some? && update.accuracy.value <= 30.0
  }

  /**
   * Whether the effect asks for a position: not when the URL already has both
   * `lat` and `lon`, not a second time, not after a denial stored in the
   * session, and only when the browser offers geolocation.
   */
  function ShouldRequest(urlHasLat: bool, urlHasLon: bool, hasRequested: bool, deniedFlag: Option<string>,
                         supported: bool): (r: bool)
    ensures r ==> !hasRequested
    ensures urlHasLat && urlHasLon ==> !r
    ensures deniedFlag == Some("true") ==> !r
    ensures !supported ==> !r
    ensures !(urlHasLat && urlHasLon) && !hasRequested && deniedFlag != Some("true") && supported ==> r
  {
    if urlHasLat && urlHasLon then false
    else if hasRequested then false
    else if deniedFlag == Some("true") then false
    else supported
  }

  /** The fix saved for a GPS report at time `now`. */
  function GpsMeta(c: Coords, now: int): (m: GeoMeta)
    ensures m.lat == Some(c.lat) && m.lon == Some(c.lon) && m.accuracy == c.accuracy
    ensures m.updatedAt == Some(now as real) && m.source == Some(Gps)
  {
    GeoMeta(Some(c.lat), Some(c.lon), c.accuracy, Some(now as real), Some(Gps))
  }

  // ----- errors ---------------------------------------------------------------------

  /** `GeolocationPositionError` codes. */
  const PERMISSION_DENIED: int := 1
  const POSITION_UNAVAILABLE: int := 2
  const TIMEOUT: int := 3

  /** Which warning `handleGeoError` logs. */
  datatype ErrorKind = NoDetails | PermissionDeniedError | TimedOut | Unavailable | UnknownError

  /** The classification of an error, by its code; None is an error without details. */
  function Classify(code: Option<int>): (k: ErrorKind)
    ensures k == NoDetails <==> code.None?
    ensures k == PermissionDeniedError <==> code == Some(PERMISSION_DENIED)
    ensures k == TimedOut <==> code == Some(TIMEOUT)
    ensures k == Unavailable <==> code == Some(POSITION_UNAVAILABLE)
  {
    if code.None? then NoDetails
    else if code.value == PERMISSION_DENIED then PermissionDeniedError
    else if code.value == TIMEOUT then TimedOut
    else if code.value == POSITION_UNAVAILABLE then Unavailable
    else UnknownError
  }

  // ----- the component ------------------------------------------------------------

  class Handler {
    var hasRequested: bool
    var watchId: Option<int>
    var lastCoords: Option<Coords>
    /** The `getCurrentPosition` calls made. */
    var requests: nat
    var navigations: seq<Navigation>
    /** The ids passed to `clearWatch`. */
    var clearedWatches: seq<int>
    const session: GeoSession
    /** `Number.prototype.toString`. */
    const showNumber: real -> string

    /** At most one position request, and only once the request flag is set. */
    predicate Valid()
      reads this
    {
      requests <= 1 && (requests == 1 ==> hasRequested)
    }

    constructor (session: GeoSession, showNumber: real -> string)
      ensures Valid()
      ensures !hasRequested && watchId == None && lastCoords == None
      ensures requests == 0 && navigations == [] && clearedWatches == []
      ensures this.session == session && this.showNumber == showNumber
    {
      hasRequested := false;
      watchId := None;
      lastCoords := None;
      requests := 0;
      navigations := [];
      clearedWatches := [];
      this.session := session;
      this.showNumber := showNumber;
    }

    /** `applyLocation`: the current parameters with `lat` and `lon` set, pushed or replaced. */
    method ApplyLocation(current: seq<Pair>, lat: real, lon: real, replace: bool)
      modifies this
      ensures navigations == old(navigations) + [Navigation(WithLatLon(current, showNumber(lat), showNumber(lon)), replace)]
      ensures hasRequested == old(hasRequested) && watchId == old(watchId) && lastCoords == old(lastCoords)
      ensures requests == old(requests) && clearedWatches == old(clearedWatches)
    {
      var params := new SearchParams.From(current);
      params.Set("lat", showNumber(lat));
      params.Set("lon", showNumber(lon));
      navigations := navigations + [Navigation(params.pairs, replace)];
    }

    /** `stopWatching`: clears a running watch once and forgets its id. */
    method StopWatching()
      modifies this
      ensures watchId == None
      ensures clearedWatches == old(clearedWatches) + (if old(watchId).Some? then [old(watchId).value] else [])
      ensures hasRequested == old(hasRequested) && lastCoords == old(lastCoords)
      ensures requests == old(requests) && navigations == old(navigations)
    {
      if watchId.Some? {
        clearedWatches := clearedWatches + [watchId.value];
        watchId := None;
      }
    }

    /**
     * The effect: returns whether a position request is made. The request
     * flag is set before the session's denial flag is consulted.
     */
    method RequestEffect(current: seq<Pair>, supported: bool) returns (requested: bool)
      requires Valid()
      modifies this
      ensures Valid()
      ensures requested == ShouldRequest("lat" in Names(current), "lon" in Names(current), old(hasRequested),
                                         session.GetItem(GEO_DENIED_KEY), supported)
      ensures requests == old(requests) + (if requested then 1 else 0)
      ensures hasRequested == (old(hasRequested) || !("lat" in Names(current) && "lon" in Names(current)))
      ensures watchId == old(watchId) && lastCoords == old(lastCoords)
      ensures navigations == old(navigations) && clearedWatches == old(clearedWatches)
    {
      requested := false;
      if "lat" in Names(current) && "lon" in Names(current) {
        return;
      }
      if hasRequested {
        return;
      }
      hasRequested := true;
      if session.GetItem(GEO_DENIED_KEY) == Some("true") {
        return;
      }
      if supported {
        requests := requests + 1;
        requested := true;
      }
    }

    /**
     * The first position: it becomes the last fix, is pushed into the URL and
     * saved as a GPS fix, and a watch with id `newWatchId` starts.
     */
    method OnInitialPosition(current: seq<Pair>, position: Coords, now: int, newWatchId: int)
      requires Valid()
      modifies this, session
      ensures Valid()
      ensures lastCoords == Some(position) && watchId == Some(newWatchId)
      ensures navigations
              == old(navigations) + [Navigation(WithLatLon(current, showNumber(position.lat), showNumber(position.lon)), false)]
      ensures session.entries == AfterSave(old(session.entries), GpsMeta(position, now), session.codec)
      ensures hasRequested == old(hasRequested) && requests == old(requests)
      ensures clearedWatches == old(clearedWatches)
    {
      lastCoords := Some(position);
      ApplyLocation(current, position.lat, position.lon, false);
      session.SaveGeoMeta(GpsMeta(position, now));
      watchId := Some(newWatchId);
    }

    /**
     * A watch update: taken exactly when `AcceptsUpdate` holds, and then it
     * becomes the last fix, replaces the URL, is saved, and stops the watch
     * when accurate to 30 m; a rejected update changes nothing.
     */
    method OnWatchUpdate(current: seq<Pair>, update: Coords, now: int) returns (accepted: bool)
      requires Valid()
      modifies this, session
      ensures Valid()
      ensures accepted == AcceptsUpdate(old(lastCoords), update)
      ensures accepted ==>
                && lastCoords == Some(update)
                && navigations
                   == old(navigations) + [Navigation(WithLatLon(current, showNumber(update.lat), showNumber(update.lon)), true)]
                && session.entries == AfterSave(old(session.entries), GpsMeta(update, now), session.codec)
                && (ShouldStopWatching(update) ==>
                      && watchId == None
                      && clearedWatches == old(clearedWatches) + (if old(watchId).Some? then [old(watchId).value] else []))
                && (!ShouldStopWatching(update) ==> watchId == old(watchId) && clearedWatches == old(clearedWatches))
      ensures !accepted ==>
                && lastCoords == old(lastCoords) && navigations == old(navigations)
                && session.entries == old(session.entries) && watchId == old(watchId)
                && clearedWatches == old(clearedWatches)
      ensures hasRequested == old(hasRequested) && requests == old(requests)
    {
      var last := lastCoords;
      var hasImprovedAccuracy := HasImprovedAccuracy(last, update.accuracy);
      var movedFar := MovedFar(last, update.lat, update.lon);
      accepted := hasImprovedAccuracy || movedFar;
      if accepted {
        lastCoords := Some(update);
        ApplyLocation(current, update.lat, update.lon, true);
        session.SaveGeoMeta(GpsMeta(update, now));
        if update.accuracy.Some? && update.accuracy.value <= 30.0 {
          StopWatching();
        }
      }
    }

    /**
     * `handleGeoError`: only a permission denial changes anything, by marking
     * the session as denied at `now`; the other kinds are only logged.
     */
    method HandleGeoError(code: Option<int>, now: int) returns (kind: ErrorKind)
      modifies session
      ensures kind == Classify(code)
      ensures kind == PermissionDeniedError ==> session.entries == AfterDenied(old(session.entries), now, session.codec)
      ensures kind != PermissionDeniedError ==> session.entries == old(session.entries)
    {
      kind := Classify(code);
      if kind == PermissionDeniedError {
        session.MarkGeoDenied(now);
      }
    }

    /** The watch's error callback: handle the error, then stop watching. */
    method OnWatchError(code: Option<int>, now: int) returns (kind: ErrorKind)
      requires Valid()
      modifies this, session
      ensures Valid()
      ensures kind == Classify(code) && watchId == None
      ensures clearedWatches == old(clearedWatches) + (if old(watchId).Some? then [old(watchId).value] else [])
      ensures kind == PermissionDeniedError ==> session.entries == AfterDenied(old(session.entries), now, session.codec)
      ensures kind != PermissionDeniedError ==> session.entries == old(session.entries)
      ensures lastCoords == old(lastCoords) && navigations == old(navigations)
      ensures hasRequested == old(hasRequested) && requests == old(requests)
    {
      kind := HandleGeoError(code, now);
      StopWatching();
    }
  }
}
