/**
 * The location and prayer-time fetch gate of components/zonIndicator.tsx. Location fixes,
 * fetch checks and manual refreshes update the saved and current location, the refs that
 * remember the last API call (time and coordinates) and the loading/error flags.
 * Coordinates are exact reals; clock readings are milliseconds.
 */
module ZonIndicator {
  import opened SolatTypes
  import Home
  import GetSolatRoute
  import SolatApi

  /** How long fetched prayer times stay fresh, in milliseconds (five minutes). */
  const CacheDuration: int := 300000
  /** The smallest coordinate change, in degrees, that counts as a move (about 100 m). */
  const MinDisplacement: real := 0.001

  /** What the geolocation hook reports. */
  datatype GeoState = GeoState(
    loading: bool, error: Option<string>, latitude: Option<real>, longitude: Option<real>)

  /** How the request to the prayer-time endpoint ends. */
  datatype FetchOutcome = Loaded(data: GetSolatResponse) | Failed(message: string)

  /**
   * What the component makes of the route's reply: an ok status (2xx) with a payload loads
   * it; otherwise the error text of the body is thrown and caught as the message, which is
   * empty when the body has no `error`. A 2xx reply carrying an error body would be stored
   * as data by the source; it is `Failed` here because a payload is the only thing
   * `Loaded` can hold, and the route never sends such a reply (`ClientOutcomeOfRoute`).
   */
  function ReplyOutcome(reply: GetSolatRoute.Reply): FetchOutcome {
    if 200 <= reply.status <= 299 && reply.body.Payload? then Loaded(reply.body.response)
    else if reply.body.ErrorBody? then Failed(reply.body.error)
    else Failed("")
  }

  /**
   * Against the route, the component loads exactly the payload of a 200 reply, and any
   * other reply fails with one of the route's own error texts, never an empty message.
   */
  lemma ClientOutcomeOfRoute(env: SolatApi.Services, latitude: Option<string>, longitude: Option<string>)
    ensures var reply := GetSolatRoute.Get(env, latitude, longitude).result;
            var o := ReplyOutcome(reply);
            && (o.Loaded? <==> reply.status == 200)
            && (o.Loaded? ==> o.data == reply.body.response)
            && (o.Failed? ==>
                  && o.message == reply.body.error
                  && o.message in {GetSolatRoute.MissingParameters, GetSolatRoute.InvalidValues,
                                   GetSolatRoute.ZoneNotFound, GetSolatRoute.PrayerFailed,
                                   GetSolatRoute.MosqueFailed}
                  && o.message != "")
  {
    GetSolatRoute.RouteStatusClasses(env, latitude, longitude);
    if GetSolatRoute.Get(env, latitude, longitude).result.status != 200 {
      GetSolatRoute.RouteErrorTexts(env, latitude, longitude);
    }
  }

  function AbsReal(x: real): real {
    if x < 0.0 then -x else x
  }

  /** `hasLocationChanged`: no previous coordinates, or either axis moved by more than 0.001. */
  predicate HasLocationChanged(last: Option<Coord>, c: Coord) {
    || last.None?
    || AbsReal(c.lat - last.value.lat) > MinDisplacement
    || AbsReal(c.lng - last.value.lng) > MinDisplacement
  }

  /** `cacheExpired`: more than five minutes since the last recorded API call. */
  predicate CacheExpired(now: int, lastApiCallTime: int) {
    now - lastApiCallTime > CacheDuration
  }

  /**
   * The skip test of `getSolat`: data is present, the cache is fresh, and the current
   * location is within 0.001 on both axes of the last fetched coordinates.
   */
  predicate SkipFetch(hasData: bool, now: int, lastApiCallTime: int,
                      lastCoordinates: Option<Coord>, current: Coord)
  {
    && hasData
    && !CacheExpired(now, lastApiCallTime)
    && lastCoordinates.Some?
    && AbsReal(current.lat - lastCoordinates.value.lat) <= MinDisplacement
    && AbsReal(current.lng - lastCoordinates.value.lng) <= MinDisplacement
  }

  /**
   * The component writes the 0.001 displacement test twice: inline in `getSolat`'s skip
   * test, and as `hasLocationChanged` in the geolocation callback, which refetches when the
   * cache expired or the location changed. The two agree: with data present, `getSolat`
   * skips exactly when the callback would not ask for a refetch.
   */
  lemma SkipIffFreshAndUnmoved(hasData: bool, now: int, lastApiCallTime: int,
                               lastCoordinates: Option<Coord>, current: Coord)
    ensures SkipFetch(hasData, now, lastApiCallTime, lastCoordinates, current)
        <==> hasData && !CacheExpired(now, lastApiCallTime) && !HasLocationChanged(lastCoordinates, current)
  {
  }

  /** Moving by exactly 0.001 on each axis is not a move; anything more on one axis is. */
  lemma DisplacementBoundary(c: Coord)
    ensures !HasLocationChanged(Some(c), Coord(c.lat + 0.001, c.lng - 0.001))
    ensures HasLocationChanged(Some(c), Coord(c.lat + 0.0011, c.lng))
  {
  }

  /**
   * The component's state. `position` is the page's current position, which
   * `updateCurrentPosition` writes, and `page` the page's schedules, which
   * `updateJadualSolat` updates.
   */
  class Indicator {
    var savedLocation: Option<Coord>
    var currentLocation: Option<Coord>
    var locationLoading: bool
    var locationError: Option<string>
    var jadualSolat: Option<GetSolatResponse>
    var solatLoading: bool
    var solatError: Option<string>
    var lastApiCallTime: int
    var lastCoordinates: Option<Coord>
    var position: Option<Coord>
    var page: Home.Schedules

    /** The first render, with whatever location local storage holds. */
    constructor (saved: Option<Coord>, schedules: Home.Schedules)
      ensures savedLocation == saved && currentLocation.None? && position.None?
      ensures page == schedules
      ensures !locationLoading && locationError.None?
      ensures jadualSolat.None? && !solatLoading && solatError.None?
      ensures lastApiCallTime == 0 && lastCoordinates.None?
    {
      savedLocation, currentLocation, position := saved, None, None;
      locationLoading, locationError := false, None;
      jadualSolat, solatLoading, solatError := None, false, None;
      lastApiCallTime, lastCoordinates := 0, None;
      page := schedules;
    }

    /**
     * processLocation. On an error the saved location, if any, becomes the current one; while
     * loading likewise. On a fix, the location is taken (saved, current, last coordinates)
     * only when there is no current location or the fix moved, and then the call time is
     * recorded when the cache expired or the fix moved. `locationSet` says whether
     * `setCurrentLocation` ran, which re-runs the fetch effect.
     */
    method ProcessLocation(location: GeoState, now: int) returns (locationSet: bool)
      modifies this`savedLocation, this`currentLocation, this`locationLoading,
               this`locationError, this`lastCoordinates, this`lastApiCallTime, this`position
      ensures savedLocation == old(savedLocation) || locationSet
      ensures location.error.Some? ==>
                && locationError == location.error && locationLoading == location.loading
                && locationSet == old(savedLocation).Some?
                && currentLocation == (if locationSet then old(savedLocation) else old(currentLocation))
                && position == (if locationSet then old(savedLocation) else old(position))
                && savedLocation == old(savedLocation)
                && lastCoordinates == old(lastCoordinates) && lastApiCallTime == old(lastApiCallTime)
      ensures location.error.None? && location.loading ==>
                && locationError == old(locationError) && locationLoading
                && locationSet == old(savedLocation).Some?
                && currentLocation == (if locationSet then old(savedLocation) else old(currentLocation))
                && position == old(position) && savedLocation == old(savedLocation)
                && lastCoordinates == old(lastCoordinates) && lastApiCallTime == old(lastApiCallTime)
      ensures location.error.None? && !location.loading
              && (location.latitude.None? || location.longitude.None?) ==>
                && locationError == Some("Failed to get location") && !locationLoading
                && !locationSet
                && currentLocation == old(currentLocation) && position == old(position)
                && savedLocation == old(savedLocation)
                && lastCoordinates == old(lastCoordinates) && lastApiCallTime == old(lastApiCallTime)
      ensures location.error.None? && !location.loading
              && location.latitude.Some? && location.longitude.Some? ==>
                var fix := Coord(location.latitude.value, location.longitude.value);
                var moved := HasLocationChanged(old(lastCoordinates), fix);
                && !locationLoading
                && locationSet == (old(currentLocation).None? || moved)
                && (locationSet ==>
                      && savedLocation == Some(fix) && currentLocation == Some(fix)
                      && position == Some(fix) && lastCoordinates == Some(fix)
                      && locationError.None?
                      && lastApiCallTime
                         == (if moved || CacheExpired(now, old(lastApiCallTime)) then now
                             else old(lastApiCallTime)))
                && (!locationSet ==>
                      && savedLocation == old(savedLocation) && currentLocation == old(currentLocation)
                      && position == old(position) && lastCoordinates == old(lastCoordinates)
                      && locationError == old(locationError)
                      && lastApiCallTime == old(lastApiCallTime))
    {
      locationSet := false;
      locationLoading := location.loading;
      if location.error.Some? {
        locationError := location.error;
        if savedLocation.Some? {
          currentLocation := savedLocation;
          position := savedLocation;
          locationSet := true;
        }
        return;
      }
      if location.loading {
        if savedLocation.Some? {
          currentLocation := savedLocation;
          locationSet := true;
        }
        return;
      }
      if location.latitude.Some? && location.longitude.Some? {
        var newCoord := Coord(location.latitude.value, location.longitude.value);
        var hasLocationChanged := HasLocationChanged(lastCoordinates, newCoord);
        var cacheExpired := CacheExpired(now, lastApiCallTime);
        if currentLocation.None? || hasLocationChanged {
          savedLocation := Some(newCoord);
          currentLocation := Some(newCoord);
          locationLoading := false;
          locationError := None;
          position := Some(newCoord);
          lastCoordinates := Some(newCoord);
          if cacheExpired || hasLocationChanged {
            lastApiCallTime := now;
          }
          locationSet := true;
        }
      } else {
        locationError := Some("Failed to get location");
      }
    }

    /**
     * The fetch effect, run after `currentLocation` was set. With no current location, or
     * when the skip test holds, nothing is fetched. Otherwise the request is made: on success
     * the data is taken, handed to the page, and the call time and coordinates are recorded;
     * on failure only the error is set. Either way loading ends.
     */
    method FetchCheck(now: int, outcome: FetchOutcome) returns (fetched: bool)
      modifies this`jadualSolat, this`solatLoading, this`solatError, this`lastApiCallTime,
               this`lastCoordinates, this`position, this`page
      ensures fetched == (currentLocation.Some?
                          && !SkipFetch(old(jadualSolat).Some?, now, old(lastApiCallTime),
                                        old(lastCoordinates), currentLocation.value))
      ensures position == (if currentLocation.Some? then currentLocation else old(position))
      ensures !fetched ==>
                && jadualSolat == old(jadualSolat) && solatLoading == old(solatLoading)
                && solatError == old(solatError) && page == old(page)
                && lastApiCallTime == old(lastApiCallTime) && lastCoordinates == old(lastCoordinates)
      ensures fetched && outcome.Loaded? ==>
                && jadualSolat == Some(outcome.data) && solatError.None? && !solatLoading
                && page == Home.Schedules(Some(outcome.data), Some(outcome.data))
                && lastApiCallTime == now && lastCoordinates == currentLocation
      ensures fetched && outcome.Failed? ==>
                && jadualSolat == old(jadualSolat) && solatError == Some(outcome.message)
                && !solatLoading && page == old(page)
                && lastApiCallTime == old(lastApiCallTime) && lastCoordinates == old(lastCoordinates)
    {
      fetched := false;
      if currentLocation.None? {
        return;
      }
      var current := currentLocation.value;
      if !SkipFetch(jadualSolat.Some?, now, lastApiCallTime, lastCoordinates, current) {
        fetched := true;
        solatLoading := true;
        solatError := None;
        match outcome {
          case Loaded(data) =>
            jadualSolat := Some(data);
            page := Home.UpdateJadual(page, Some(data));
            lastApiCallTime := now;
            lastCoordinates := currentLocation;
          case Failed(message) =>
            solatError := Some(message);
        }
        solatLoading := false;
      }
      position := currentLocation;
    }

    /**
     * handleManualRefresh: forget the saved and current location and the data (here and on
     * the page), clear the fetch error, show loading, and reset the refs so the next fix
     * fetches.
     */
    method ManualRefresh()
      modifies this`savedLocation, this`currentLocation, this`jadualSolat, this`solatError,
               this`locationLoading, this`lastApiCallTime, this`lastCoordinates, this`page
      ensures savedLocation.None? && currentLocation.None? && jadualSolat.None?
      ensures page == Home.Schedules(None, None)
      ensures solatError.None? && locationLoading
      ensures lastApiCallTime == 0 && lastCoordinates.None?
    {
      savedLocation := None;
      currentLocation := None;
      jadualSolat := None;
      solatError := None;
      locationLoading := true;
      page := Home.UpdateJadual(page, None);
      lastApiCallTime := 0;
      lastCoordinates := None;
    }
  }

  /**
   * A fix that moves the user records the new coordinates and the clock before the fetch
   * effect runs, so a fetch check at the same instant is skipped whenever data is already
   * present: the new location's prayer times are not fetched.
   */
  method FetchRightAfterMove(ind: Indicator, fix: Coord, now: int, outcome: FetchOutcome)
      returns (fetched: bool)
    requires ind.jadualSolat.Some? && ind.currentLocation.Some?
    requires HasLocationChanged(ind.lastCoordinates, fix)
    modifies ind
    ensures !fetched && ind.jadualSolat == old(ind.jadualSolat)
    ensures ind.currentLocation == Some(fix)
  {
    var taken := ind.ProcessLocation(GeoState(false, None, Some(fix.lat), Some(fix.lng)), now);
    assert taken;
    fetched := ind.FetchCheck(now, outcome);
  }

  /**
   * A second fix within 0.001 of the last one, while a location is current, does not set
   * the location, so the fetch effect does not run again.
   */
  method SecondNearbyFixDoesNotRefetch(ind: Indicator, fix: Coord, now: int) returns (taken: bool)
    requires ind.currentLocation.Some? && !HasLocationChanged(ind.lastCoordinates, fix)
    modifies ind
    ensures !taken && ind.currentLocation == old(ind.currentLocation)
    ensures ind.lastApiCallTime == old(ind.lastApiCallTime)
  {
    taken := ind.ProcessLocation(GeoState(false, None, Some(fix.lat), Some(fix.lng)), now);
  }
}
