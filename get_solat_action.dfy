/**
 * The server action `getSolatData` (app/actions/getSolat.ts): validate the two coordinate
 * strings, find the zone, fetch the month's timetable, look up the Qibla bearing and fetch
 * the nearby mosques, degrading to an empty mosque list when that last request fails.
 */
module GetSolatAction {
  import opened SolatTypes
  import opened SolatApi

  const MissingParameters := "Missing required parameters: latitude and longitude"
  const InvalidCoordinates := "Invalid location coordinates"
  const OutsideMalaysia := "Solat.Today is only available in Malaysia."
  const PrayerNotOk := "Unable to retrieve prayer times"
  const PrayerConnection := "Connection error when retrieving prayer times"
  const Unexpected := "Unexpected error occurred while retrieving prayer data"

  /** The search radius of the action's nearest-mosque request (`dist=20`). */
  const MosqueRadius := 20

  /** What the action resolves to: the assembled response or `{ error }`. */
  datatype ActionResult = Success(response: GetSolatResponse) | Failure(error: string)

  /** The outer catch: an Error's message, or the fixed text for anything else thrown. */
  function CaughtMessage(message: Option<string>): string {
    message.GetOr(Unexpected)
  }

  /**
   * `mosque.locationData || []`, where `mosque` keeps its `{ locationData: [] }` default
   * unless the request answered ok with a body that parsed.
   */
  function MosquesOrEmpty(f: Fetch<Option<seq<Mosque>>>): seq<Mosque> {
    if f.Ok? && f.body.Parsed? then f.body.value.GetOr([]) else []
  }

  /** The action's answer and calls as a function of the outside world. */
  function Outcome(env: Services, latitude: Option<string>, longitude: Option<string>): Run<ActionResult> {
    if Missing(latitude) || Missing(longitude) then Run(Failure(MissingParameters), [])
    else
      var lat := env.parse(latitude.value);
      var lng := env.parse(longitude.value);
      if lat.None? || lng.None? then Run(Failure(InvalidCoordinates), [])
      else
        var lookup := [ZoneLookup(lat.value, lng.value)];
        match env.zoneAt(lat.value, lng.value)
        case None => Run(Failure(OutsideMalaysia), lookup)
        case Some(zon) =>
          var requested := lookup + [PrayerRequest(zon.code)];
          match env.prayerApi(zon.code)
          case Threw(_) => Run(Failure(PrayerConnection), requested)
          case NotOk(_) => Run(Failure(PrayerNotOk), requested)
          case Ok(Malformed(m)) => Run(Failure(CaughtMessage(m)), requested)
          case Ok(Parsed(timetable)) =>
            var masjid := MosquesOrEmpty(env.mosqueApi(lat.value, lng.value, MosqueRadius));
            Run(Success(GetSolatResponse(zon, timetable.month, timetable.lastUpdated,
                                         BearingFor(env.bearings, zon.code), Some(masjid),
                                         timetable.prayers)),
                requested + [MosqueRequest(lat.value, lng.value, MosqueRadius)])
  }

  /** getSolatData, step by step with early returns, the mosque default overwritten on success. */
  method GetSolatData(env: Services, latitude: Option<string>, longitude: Option<string>)
      returns (r: Run<ActionResult>)
    ensures r == Outcome(env, latitude, longitude)
  {
    if Missing(latitude) || Missing(longitude) {
      return Run(Failure(MissingParameters), []);
    }
    var lat := env.parse(latitude.value);
    var lng := env.parse(longitude.value);
    if lat.None? || lng.None? {
      return Run(Failure(InvalidCoordinates), []);
    }
    var calls := [ZoneLookup(lat.value, lng.value)];
    var zon := env.zoneAt(lat.value, lng.value);
    if zon.None? {
      return Run(Failure(OutsideMalaysia), calls);
    }
    calls := calls + [PrayerRequest(zon.value.code)];
    var result := env.prayerApi(zon.value.code);
    if result.Threw? {
      return Run(Failure(PrayerConnection), calls);
    }
    if result.NotOk? {
      return Run(Failure(PrayerNotOk), calls);
    }
    if result.body.Malformed? {
      return Run(Failure(CaughtMessage(result.body.message)), calls);
    }
    var timetable := result.body.value;
    var bearingDegree := BearingFor(env.bearings, zon.value.code);
    var mosque: Option<seq<Mosque>> := Some([]);
    calls := calls + [MosqueRequest(lat.value, lng.value, MosqueRadius)];
    var result3 := env.mosqueApi(lat.value, lng.value, MosqueRadius);
    if result3.Ok? && result3.body.Parsed? {
      mosque := result3.body.value;
    }
    return Run(Success(GetSolatResponse(zon.value, timetable.month, timetable.lastUpdated,
                                         bearingDegree, Some(mosque.GetOr([])), timetable.prayers)),
               calls);
  }

  /**
   * The validation order: missing parameters are reported before anything else, unparsable
   * coordinates before any zone lookup, and a missing zone before any prayer request.
   */
  lemma ActionValidationOrder(env: Services, latitude: Option<string>, longitude: Option<string>)
    ensures Missing(latitude) || Missing(longitude) ==>
              Outcome(env, latitude, longitude) == Run(Failure(MissingParameters), [])
    ensures !Missing(latitude) && !Missing(longitude)
            && (env.parse(latitude.value).None? || env.parse(longitude.value).None?) ==>
              Outcome(env, latitude, longitude) == Run(Failure(InvalidCoordinates), [])
    ensures forall c :: c in Outcome(env, latitude, longitude).calls && c.PrayerRequest? ==>
              && env.zoneAt(env.parse(latitude.value).value, env.parse(longitude.value).value).Some?
              && c.code == env.zoneAt(env.parse(latitude.value).value, env.parse(longitude.value).value).value.code
    ensures !Missing(latitude) && !Missing(longitude)
            && env.parse(latitude.value).Some? && env.parse(longitude.value).Some?
            && env.zoneAt(env.parse(latitude.value).value, env.parse(longitude.value).value).None? ==>
              Outcome(env, latitude, longitude)
              == Run(Failure(OutsideMalaysia),
                     [ZoneLookup(env.parse(latitude.value).value, env.parse(longitude.value).value)])
  {
    if !Missing(latitude) && !Missing(longitude) {
      var lat := env.parse(latitude.value);
      var lng := env.parse(longitude.value);
      if lat.Some? && lng.Some? && env.zoneAt(lat.value, lng.value).Some? {
        var zon := env.zoneAt(lat.value, lng.value).value;
        var calls := Outcome(env, latitude, longitude).calls;
        var requested := [ZoneLookup(lat.value, lng.value), PrayerRequest(zon.code)];
        assert calls == requested || calls == requested + [MosqueRequest(lat.value, lng.value, MosqueRadius)];
      }
    }
  }

  /**
   * A failure never comes from the mosque request: every error is decided before the
   * mosque directory is asked, and once the timetable parsed the action succeeds.
   */
  lemma MosqueFailureDegrades(env: Services, latitude: Option<string>, longitude: Option<string>)
    ensures Outcome(env, latitude, longitude).result.Failure? ==>
              forall c :: c in Outcome(env, latitude, longitude).calls ==> !c.MosqueRequest?
    ensures Outcome(env, latitude, longitude).result.Success? <==>
              && !Missing(latitude) && !Missing(longitude)
              && env.parse(latitude.value).Some? && env.parse(longitude.value).Some?
              && env.zoneAt(env.parse(latitude.value).value, env.parse(longitude.value).value).Some?
              && var code := env.zoneAt(env.parse(latitude.value).value, env.parse(longitude.value).value).value.code;
                 env.prayerApi(code).Ok? && env.prayerApi(code).body.Parsed?
  {
  }

  /**
   * On success the zone, the month and the prayer rows are passed through, the bearing is
   * the table's, and the mosque list is always present (empty when the request failed).
   */
  lemma ActionSuccessPassesThrough(env: Services, latitude: Option<string>, longitude: Option<string>)
    requires Outcome(env, latitude, longitude).result.Success?
    ensures var resp := Outcome(env, latitude, longitude).result.response;
            var lat := env.parse(latitude.value).value;
            var lng := env.parse(longitude.value).value;
            var zon := env.zoneAt(lat, lng).value;
            var timetable := env.prayerApi(zon.code).body.value;
            && resp.zon == zon
            && resp.month == timetable.month && resp.prayerTimes == timetable.prayers
            && resp.updatedAt == timetable.lastUpdated
            && resp.bearing == BearingFor(env.bearings, zon.code)
            && resp.masjid.Some?
            && resp.masjid == Some(MosquesOrEmpty(env.mosqueApi(lat, lng, MosqueRadius)))
            && (!env.mosqueApi(lat, lng, MosqueRadius).Ok? ==> resp.masjid == Some([]))
            && Outcome(env, latitude, longitude).calls
               == [ZoneLookup(lat, lng), PrayerRequest(zon.code), MosqueRequest(lat, lng, MosqueRadius)]
  {
  }

  /**
   * Every error the action reports is one of its fixed texts, or the message of the Error
   * caught while reading the timetable of the zone found at the given position.
   */
  lemma ActionErrorTexts(env: Services, latitude: Option<string>, longitude: Option<string>)
    requires Outcome(env, latitude, longitude).result.Failure?
    ensures var e := Outcome(env, latitude, longitude).result.error;
            var pos := Position(env, latitude, longitude);
            || e in {MissingParameters, InvalidCoordinates, OutsideMalaysia, PrayerNotOk,
                     PrayerConnection, Unexpected}
            || (pos.Some? && env.zoneAt(pos.value.0, pos.value.1).Some?
                && var code := env.zoneAt(pos.value.0, pos.value.1).value.code;
                   env.prayerApi(code).Ok? && env.prayerApi(code).body.Malformed?
                   && env.prayerApi(code).body.message == Some(e))
  {
  }
}
