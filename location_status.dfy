/**
 * The location overlay's helpers: the accuracy and age labels of the stored
 * fix, the character filter of the coordinate inputs, the manual-location
 * submission (typed coordinates or a geocoded address), and which message,
 * overlay and retry button are shown.
 */
module LocationStatus {
  import opened Js
  import opened UrlParams
  import opened LocationStorage

  // ----- labels -----------------------------------------------------------------

  /** `'Precision aproximada'` or `'Precision +/- <meters> m'`. */
  datatype AccuracyLabel = Approximate | PlusMinus(meters: int)

  /** `Math.round`: the nearest integer, halves rounded up. */
  function Round(x: real): (n: int)
    ensures n as real - 0.5 <= x < n as real + 0.5
  {
    (x + 0.5).Floor
  }

  /**
   * `formatAccuracy`: no accuracy gives the approximate label; up to 5 m reads
   * 5 m, up to 15 m reads 15 m, and beyond that the rounded value, never less
   * than 15.
   */
  function FormatAccuracy(accuracy: Option<real>): (r: AccuracyLabel)
    ensures accuracy.None? <==> r.Approximate?
    ensures accuracy.Some? && accuracy.value <= 5.0 ==> r == PlusMinus(5)
    ensures accuracy.Some? && 5.0 < accuracy.value <= 15.0 ==> r == PlusMinus(15)
    ensures accuracy.Some? && accuracy.value > 15.0 ==>
              r.PlusMinus? && r.meters >= 15
              && r.meters as real - 0.5 <= accuracy.value < r.meters as real + 0.5
  {
    if accuracy.None? then Approximate
    else if accuracy.value <= 5.0 then PlusMinus(5)
    else if accuracy.value <= 15.0 then PlusMinus(15)
    else PlusMinus(Round(accuracy.value))
  }

  /** `''`, `'hace unos segundos'`, `'hace <n> min'` or `'hace <n> h'`. */
  datatype AgeLabel = NoAge | Seconds | Minutes(minutes: int) | Hours(hours: int)

  /**
   * `formatRelativeTime` at time `now`: no label for a falsy timestamp; under a
   * minute (a future timestamp included) reads as seconds; under an hour as the
   * whole minutes, 1 to 59; otherwise as the whole hours, at least 1.
   */
  function FormatRelativeTime(timestamp: Option<real>, now: int): (r: AgeLabel)
    ensures !TruthyNumber(timestamp) <==> r.NoAge?
    ensures r.Seconds? <==> TruthyNumber(timestamp) && now as real - timestamp.value < 60000.0
    ensures r.Minutes? ==>
              && 1 <= r.minutes <= 59
              && (r.minutes * 60000) as real <= now as real - timestamp.value < ((r.minutes + 1) * 60000) as real
    ensures r.Hours? ==>
              && r.hours >= 1
              && (r.hours * 3600000) as real <= now as real - timestamp.value < ((r.hours + 1) * 3600000) as real
    ensures TruthyNumber(timestamp) && 60000.0 <= now as real - timestamp.value < 3600000.0 ==> r.Minutes?
    ensures TruthyNumber(timestamp) && now as real - timestamp.value >= 3600000.0 ==> r.Hours?
  {
    if !TruthyNumber(timestamp) then NoAge
    else
      var diff := now as real - timestamp.value;
      if diff < 60000.0 then Seconds
      else if diff < 3600000.0 then Minutes((diff / 60000.0).Floor)
      else Hours((diff / 3600000.0).Floor)
  }

  // ----- the coordinate input filter ------------------------------------------

  /** The characters `[0-9+\-\.]` the coordinate inputs keep. */
  predicate Allowed(c: char) {
    ('0' <= c <= '9') || c == '+' || c == '-' || c == '.'
  }

  /** `clampValue`: `value.replace(/[^0-9+\-\.]/g, '')`. */
  function ClampValue(value: string): (r: string)
    ensures |r| <= |value|
    ensures forall i :: 0 <= i < |r| ==> Allowed(r[i])
    decreases |value|
  {
    if value == [] then []
    else (if Allowed(value[0]) then [value[0]] else []) + ClampValue(value[1..])
  }

  /** The filter keeps characters of the input in their order. */
  lemma {:induction false} ClampValueSubsequence(value: string)
    ensures IsSubsequence(ClampValue(value), value)
    decreases |value|
  {
    if value != [] {
      ClampValueSubsequence(value[1..]);
      var r := ClampValue(value);
      if Allowed(value[0]) {
        assert r[0] == value[0] && r[1..] == ClampValue(value[1..]);
      } else {
        assert r == ClampValue(value[1..]);
        assert IsSubsequence(r, value[1..]);
      }
    }
  }

  /** The filter keeps every allowed character as often as it occurs, and no other character. */
  lemma {:induction false} ClampValueCounts(value: string)
    ensures forall c :: multiset(ClampValue(value))[c] == if Allowed(c) then multiset(value)[c] else 0
    decreases |value|
  {
    if value != [] {
      ClampValueCounts(value[1..]);
      assert value == [value[0]] + value[1..];
    }
  }

  /** Filtering a value that holds only allowed characters changes nothing. */
  lemma {:induction false} ClampValueOfAllowed(value: string)
    requires forall i :: 0 <= i < |value| ==> Allowed(value[i])
    ensures ClampValue(value) == value
    decreases |value|
  {
    if value != [] {
      ClampValueOfAllowed(value[1..]);
    }
  }

  /** Filtering twice is filtering once. */
  lemma ClampValueIdempotent(value: string)
    ensures ClampValue(ClampValue(value)) == ClampValue(value)
  {
    ClampValueOfAllowed(ClampValue(value));
  }

  // ----- manual location --------------------------------------------------------

  /** What the geocoding request yields: a position and Google's `location_type`. */
  datatype Geocoded = Geocoded(lat: real, lon: real, locationType: Option<string>)

  /** The accuracy assumed for a geocoded address: 15 m for a rooftop match, 60 m otherwise. */
  function EstimatedAccuracy(locationType: Option<string>): (r: real)
    ensures r == 15.0 || r == 60.0
    ensures r == 15.0 <==> locationType == Some("ROOFTOP")
  {
    if locationType == Some("ROOFTOP") then 15.0 else 60.0
  }

  datatype SubmitError = InvalidFormat | OutOfRange | MissingAddress | GeocodeFailed

  datatype ManualResult = Located(lat: real, lon: real, accuracy: Option<real>) | Failed(error: SubmitError)

  /** Both trimmed coordinate inputs are non-empty. */
  predicate HasManualCoords(manualLat: string, manualLon: string) {
    Trim(manualLat) != "" && Trim(manualLon) != ""
  }

  /** The range check: latitudes in [-90, 90], longitudes in [-180, 180], bounds included. */
  predicate InRange(lat: real, lon: real) {
    -90.0 <= lat <= 90.0 && -180.0 <= lon <= 180.0
  }

  /**
   * The decision of `handleSubmitManual`: typed coordinates are used only when
   * both are given, and then must read as finite numbers within range; otherwise
   * the trimmed address must be non-empty and geocode. `toNumber` is `Number()`
   * restricted to finite results; `geocode` is the request, None when it throws.
   */
  function ManualLocation(manualLat: string, manualLon: string, manualAddress: string,
                          toNumber: string -> Option<real>, geocode: string -> Option<Geocoded>): (r: ManualResult)
    ensures r == Failed(InvalidFormat) <==>
              HasManualCoords(manualLat, manualLon)
              && (toNumber(Trim(manualLat)).None? || toNumber(Trim(manualLon)).None?)
    ensures r == Failed(OutOfRange) <==>
              && HasManualCoords(manualLat, manualLon)
              && toNumber(Trim(manualLat)).Some? && toNumber(Trim(manualLon)).Some?
              && !InRange(toNumber(Trim(manualLat)).value, toNumber(Trim(manualLon)).value)
    ensures r == Failed(MissingAddress) <==> !HasManualCoords(manualLat, manualLon) && Trim(manualAddress) == ""
    ensures r == Failed(GeocodeFailed) <==>
              !HasManualCoords(manualLat, manualLon) && Trim(manualAddress) != ""
              && geocode(Trim(manualAddress)).None?
    ensures r.Located? && HasManualCoords(manualLat, manualLon) ==>
              && Some(r.lat) == toNumber(Trim(manualLat)) && Some(r.lon) == toNumber(Trim(manualLon))
              && InRange(r.lat, r.lon) && r.accuracy.None?
    ensures r.Located? && !HasManualCoords(manualLat, manualLon) ==>
              && geocode(Trim(manualAddress)).Some?
              && r.lat == geocode(Trim(manualAddress)).value.lat
              && r.lon == geocode(Trim(manualAddress)).value.lon
              && r.accuracy == Some(EstimatedAccuracy(geocode(Trim(manualAddress)).value.locationType))
  {
    if HasManualCoords(manualLat, manualLon) then
      var parsedLat := toNumber(Trim(manualLat));
      var parsedLon := toNumber(Trim(manualLon));
      if parsedLat.None? || parsedLon.None? then Failed(InvalidFormat)
      else if !InRange(parsedLat.value, parsedLon.value) then Failed(OutOfRange)
      else Located(parsedLat.value, parsedLon.value, None)
    else if Trim(manualAddress) == "" then Failed(MissingAddress)
    else
      match geocode(Trim(manualAddress))
      case None => Failed(GeocodeFailed)
      case Some(g) => Located(g.lat, g.lon, Some(EstimatedAccuracy(g.locationType)))
  }

  /** The fix `handleSubmitManual` saves for a located result. */
  function ManualMeta(lat: real, lon: real, accuracy: Option<real>, now: int): (m: GeoMeta)
    ensures m.source == Some(Manual) && m.updatedAt == Some(now as real)
    ensures m.lat == Some(lat) && m.lon == Some(lon) && m.accuracy == accuracy
  {
    GeoMeta(Some(lat), Some(lon), accuracy, Some(now as real), Some(Manual))
  }

  /**
   * The checks at the top of `handleSubmitManual`, in their order: the typed
   * coordinates are parsed and range-checked, or else the address is trimmed
   * and geocoded; the first failing check names the error. This is the
   * handler's own early-return form of the decision; `ManualLocation` states
   * the same decision as one expression, and the ensures ties the two.
   */
  method DecideManual(manualLat: string, manualLon: string, manualAddress: string,
                      toNumber: string -> Option<real>, geocode: string -> Option<Geocoded>)
    returns (result: ManualResult)
    ensures result == ManualLocation(manualLat, manualLon, manualAddress, toNumber, geocode)
  {
    var trimmedLat := Trim(manualLat);
    var trimmedLon := Trim(manualLon);
    var hasManualCoords := trimmedLat != "" && trimmedLon != "";
    assert hasManualCoords == HasManualCoords(manualLat, manualLon);
    if hasManualCoords {
      var parsedLat := toNumber(trimmedLat);
      var parsedLon := toNumber(trimmedLon);
      if parsedLat.None? || parsedLon.None? {
        return Failed(InvalidFormat);
      }
      if parsedLat.value < -90.0 || parsedLat.value > 90.0 || parsedLon.value < -180.0 || parsedLon.value > 180.0 {
        return Failed(OutOfRange);
      }
      assert InRange(parsedLat.value, parsedLon.value);
      result := Located(parsedLat.value, parsedLon.value, None);
    } else {
      var trimmedAddress := Trim(manualAddress);
      if trimmedAddress == "" {
        return Failed(MissingAddress);
      }
      var geocoded := geocode(trimmedAddress);
      if geocoded.None? {
        return Failed(GeocodeFailed);
      }
      result := Located(geocoded.value.lat, geocoded.value.lon, Some(EstimatedAccuracy(geocoded.value.locationType)));
    }
  }

  /**
   * `handleSubmitManual`: when a target position is found, sets `lat` and
   * `lon` on the current search parameters, replaces the page by `path`
   * followed by them, and saves the fix as manual; on an error there is no
   * navigation and the session does not change. `showNumber` is
   * `Number.prototype.toString`.
   */
  method SubmitManual(session: GeoSession, current: seq<Pair>, path: string,
                      manualLat: string, manualLon: string, manualAddress: string, now: int,
                      toNumber: string -> Option<real>, geocode: string -> Option<Geocoded>,
                      showNumber: real -> string, encode: string -> string)
    returns (result: ManualResult, query: seq<Pair>, target: Option<string>)
    modifies session
    ensures result == ManualLocation(manualLat, manualLon, manualAddress, toNumber, geocode)
    ensures result.Located? ==>
              && query == WithLatLon(current, showNumber(result.lat), showNumber(result.lon))
              && target == Some(path + "?" + Serialize(query, encode))
              && session.entries
                 == AfterSave(old(session.entries), ManualMeta(result.lat, result.lon, result.accuracy, now), session.codec)
    ensures result.Failed? ==> query == current && target == None && session.entries == old(session.entries)
  {
    result := DecideManual(manualLat, manualLon, manualAddress, toNumber, geocode);
    query := current;
    target := None;
    if result.Failed? {
      return;
    }
    var params := new SearchParams.From(current);
    params.Set("lat", showNumber(result.lat));
    params.Set("lon", showNumber(result.lon));
    query := params.pairs;
    var queryString := params.ToString(encode);
    assert "lat" in Names(query);
    SerializeEmpty(query, encode);
    target := Some(if queryString != "" then path + "?" + queryString else path);
    session.SaveGeoMeta(ManualMeta(result.lat, result.lon, result.accuracy, now));
  }

  /**
   * `handleRetry`: forgets the stored state and drops `lat` and `lon` from the
   * current search parameters, keeping every other one; the page is replaced
   * by `path` with the remaining parameters, or by `path` alone when none
   * remain. The reload that follows is not modelled.
   */
  method Retry(session: GeoSession, current: seq<Pair>, path: string, encode: string -> string)
    returns (query: seq<Pair>, target: string)
    modifies session
    ensures session.entries == AfterClear(old(session.entries))
    ensures query == WithoutLatLon(current)
    ensures target == if Serialize(query, encode) == "" then path else path + "?" + Serialize(query, encode)
  {
    session.ClearGeoState();
    var nextParams := new SearchParams.From(current);
    nextParams.Delete("lat");
    nextParams.Delete("lon");
    query := nextParams.pairs;
    var url := nextParams.ToString(encode);
    target := if url != "" then path + "?" + url else path;
  }

  // ----- what the overlay shows -------------------------------------------------

  datatype StatusMessage = PermissionDenied | AdjustedManually | Searching | Detected

  predicate IsDenied(geoState: Option<GeoState>) {
    geoState.Some? && geoState.value.Denied?
  }

  /** `geoState?.source === 'manual'`: only a granted state carries a source. */
  predicate IsManual(geoState: Option<GeoState>) {
    geoState.Some? && geoState.value.Granted? && geoState.value.meta.source == Some(Manual)
  }

  /**
   * `statusMessage`: a denial wins, then a manual fix, then a missing `lat` or
   * `lon` parameter; only with both parameters and neither of the others is the
   * location reported as detected.
   */
  function Status(geoState: Option<GeoState>, latParam: Option<string>, lonParam: Option<string>): (r: StatusMessage)
    ensures IsDenied(geoState) <==> r == PermissionDenied
    ensures r == AdjustedManually <==> IsManual(geoState)
    ensures r == Searching <==>
              !IsDenied(geoState) && !IsManual(geoState) && (!TruthyText(latParam) || !TruthyText(lonParam))
    ensures r == Detected <==>
              !IsDenied(geoState) && !IsManual(geoState) && TruthyText(latParam) && TruthyText(lonParam)
  {
    if IsDenied(geoState) then PermissionDenied
    else if IsManual(geoState) then AdjustedManually
    else if !TruthyText(latParam) || !TruthyText(lonParam) then Searching
    else Detected
  }

  /** `'Habilita los permisos...'` for a denial, otherwise the accuracy label. */
  datatype AccuracyLine = EnablePermissions | Accuracy(shown: AccuracyLabel)

  /** `accuracyLabel`: the permissions hint for a denial, else the stored fix's accuracy label. */
  function AccuracyLineFor(geoState: Option<GeoState>): (r: AccuracyLine)
    ensures r.EnablePermissions? <==> IsDenied(geoState)
    ensures geoState.None? ==> r == Accuracy(Approximate)
    ensures geoState.Some? && geoState.value.Granted? ==> r == Accuracy(FormatAccuracy(geoState.value.meta.accuracy))
  {
    if IsDenied(geoState) then EnablePermissions
    else if geoState.None? then Accuracy(FormatAccuracy(None))
    else Accuracy(FormatAccuracy(geoState.value.meta.accuracy))
  }

  /** `geoState?.updatedAt`: a denial and a fix both carry one. */
  function UpdatedAt(geoState: Option<GeoState>): Option<real> {
    if geoState.None? then None
    else if geoState.value.Denied? then geoState.value.updatedAt
    else geoState.value.meta.updatedAt
  }

  /** `updatedLabel`: the age of the stored denial or fix, none without a state. */
  function UpdatedLabel(geoState: Option<GeoState>, now: int): (r: AgeLabel)
    ensures geoState.None? ==> r == NoAge
    ensures geoState.Some? && geoState.value.Denied? ==> r == FormatRelativeTime(geoState.value.updatedAt, now)
    ensures geoState.Some? && geoState.value.Granted? ==> r == FormatRelativeTime(geoState.value.meta.updatedAt, now)
  {
    FormatRelativeTime(UpdatedAt(geoState), now)
  }

  /** `showOverlay`: hidden exactly when there is no `lat`, no `lon` and no stored state. */
  function ShowOverlay(latParam: Option<string>, lonParam: Option<string>, geoState: Option<GeoState>): (r: bool)
    ensures !r <==> !TruthyText(latParam) && !TruthyText(lonParam) && geoState.None?
  {
    TruthyText(latParam) || TruthyText(lonParam) || geoState.Some?
  }

  /** `showRetry`: exactly when the stored state is a denial. */
  function ShowRetry(geoState: Option<GeoState>): (r: bool)
    ensures r <==> Status(geoState, None, None) == PermissionDenied
  {
    IsDenied(geoState)
  }
}
