/**
 * The route handler `GET /api/getSolat` (app/api/getSolat/route.ts): the same steps as the
 * server action, answered with an HTTP status, and with a stricter policy where the mosque
 * directory fails: the whole request fails instead of degrading.
 */
module GetSolatRoute {
  import opened SolatTypes
  import opened SolatApi
  import GetSolatAction

  const MissingParameters := "Missing required parameters: latitude and longitude"
  const InvalidValues := "Invalid parameter values"
  const ZoneNotFound := "Zon JAKIM not found. Maybe you are not in Malaysia?"
  const PrayerFailed := "Failed to retrieve prayer times"
  const MosqueFailed := "Failed to retrieve JAKIM mosque"

  /** The search radius of the route's nearest-mosque request (`dist=3`). */
  const MosqueRadius := 3

  /** A JSON body: the assembled response or `{ error }`. */
  datatype ReplyBody = Payload(response: GetSolatResponse) | ErrorBody(error: string)

  /** `NextResponse.json(body, { status })`; the status defaults to 200. */
  datatype Reply = Reply(status: int, body: ReplyBody)

  /** The handler's reply and calls as a function of the query parameters and the outside world. */
  function Get(env: Services, latitude: Option<string>, longitude: Option<string>): Run<Reply> {
    if Missing(latitude) || Missing(longitude) then Run(Reply(400, ErrorBody(MissingParameters)), [])
    else
      var lat := env.parse(latitude.value);
      var lng := env.parse(longitude.value);
      if lat.None? || lng.None? then Run(Reply(400, ErrorBody(InvalidValues)), [])
      else
        var lookup := [ZoneLookup(lat.value, lng.value)];
        match env.zoneAt(lat.value, lng.value)
        case None => Run(Reply(500, ErrorBody(ZoneNotFound)), lookup)
        case Some(zon) =>
          var requested := lookup + [PrayerRequest(zon.code)];
          match env.prayerApi(zon.code)
          case Ok(Parsed(timetable)) =>
            var all := requested + [MosqueRequest(lat.value, lng.value, MosqueRadius)];
            (match env.mosqueApi(lat.value, lng.value, MosqueRadius)
             case Ok(Parsed(locationData)) =>
               Run(Reply(200, Payload(GetSolatResponse(zon, timetable.month, timetable.lastUpdated,
                                                      BearingFor(env.bearings, zon.code),
                                                      locationData, timetable.prayers))),
                   all)
             case NotOk(_) => Run(Reply(500, ErrorBody(MosqueFailed)), all)
             case _ => Run(Reply(500, ErrorBody(PrayerFailed)), all))
          // A non-ok answer, and a throw caught by the outer handler, share one reply.
          case _ => Run(Reply(500, ErrorBody(PrayerFailed)), requested)
  }

  /**
   * The status tells the failure class: 400 exactly when a parameter is missing or does
   * not parse, 200 exactly when a payload is returned, 500 otherwise.
   */
  lemma RouteStatusClasses(env: Services, latitude: Option<string>, longitude: Option<string>)
    ensures var reply := Get(env, latitude, longitude).result;
            && reply.status in {200, 400, 500}
            && (reply.status == 200 <==> reply.body.Payload?)
            && (reply.status == 400 <==>
                  || Missing(latitude) || Missing(longitude)
                  || env.parse(latitude.value).None? || env.parse(longitude.value).None?)
  {
  }

  /**
   * The order of the checks: a missing parameter first, then an unparsable one, then a
   * missing zone, each answered before any further external call.
   */
  lemma RouteValidationOrder(env: Services, latitude: Option<string>, longitude: Option<string>)
    ensures Missing(latitude) || Missing(longitude) ==>
              Get(env, latitude, longitude) == Run(Reply(400, ErrorBody(MissingParameters)), [])
    ensures !Missing(latitude) && !Missing(longitude)
            && (env.parse(latitude.value).None? || env.parse(longitude.value).None?) ==>
              Get(env, latitude, longitude) == Run(Reply(400, ErrorBody(InvalidValues)), [])
    ensures !Missing(latitude) && !Missing(longitude)
            && env.parse(latitude.value).Some? && env.parse(longitude.value).Some?
            && env.zoneAt(env.parse(latitude.value).value, env.parse(longitude.value).value).None? ==>
              Get(env, latitude, longitude)
              == Run(Reply(500, ErrorBody(ZoneNotFound)),
                     [ZoneLookup(env.parse(latitude.value).value, env.parse(longitude.value).value)])
  {
  }

  /**
   * On success the zone, the month, the prayer rows and the bearing are passed through, and
   * the mosque list is the `locationData` of the route's own 3 km request as it came, with
   * no fallback: it is absent when the directory's body has none.
   */
  lemma RouteSuccessPassesThrough(env: Services, latitude: Option<string>, longitude: Option<string>)
    requires Get(env, latitude, longitude).result.status == 200
    ensures Position(env, latitude, longitude).Some?
    ensures var (lat, lng) := Position(env, latitude, longitude).value;
            var resp := Get(env, latitude, longitude).result.body.response;
            var answer := env.prayerApi(resp.zon.code);
            && env.zoneAt(lat, lng) == Some(resp.zon)
            && answer.Ok? && answer.body.Parsed?
            && resp.month == answer.body.value.month && resp.prayerTimes == answer.body.value.prayers
            && resp.updatedAt == answer.body.value.lastUpdated
            && resp.bearing == BearingFor(env.bearings, resp.zon.code)
            && env.mosqueApi(lat, lng, MosqueRadius).Ok?
            && env.mosqueApi(lat, lng, MosqueRadius).body.Parsed?
            && resp.masjid == env.mosqueApi(lat, lng, MosqueRadius).body.value
            && Get(env, latitude, longitude).calls
               == [ZoneLookup(lat, lng), PrayerRequest(resp.zon.code), MosqueRequest(lat, lng, MosqueRadius)]
  {
  }

  /**
   * Every failure carries an error body with one of the route's five texts. "Failed to
   * retrieve prayer times" is reported once the zone is known, when the timetable is not
   * ok or does not parse, and also when the mosque request throws or its body does not
   * parse (the outer catch); "Failed to retrieve JAKIM mosque" only for a non-ok mosque
   * answer after a good timetable.
   */
  lemma RouteErrorTexts(env: Services, latitude: Option<string>, longitude: Option<string>)
    requires Get(env, latitude, longitude).result.status != 200
    ensures Get(env, latitude, longitude).result.body.ErrorBody?
    ensures Get(env, latitude, longitude).result.body.error
            in {MissingParameters, InvalidValues, ZoneNotFound, PrayerFailed, MosqueFailed}
    ensures var e := Get(env, latitude, longitude).result.body.error;
            var pos := Position(env, latitude, longitude);
            var zone := if pos.Some? then env.zoneAt(pos.value.0, pos.value.1) else None;
            var timetableOk := zone.Some? && env.prayerApi(zone.value.code).Ok?
                               && env.prayerApi(zone.value.code).body.Parsed?;
            && (e == ZoneNotFound <==> pos.Some? && zone.None?)
            && (e == PrayerFailed <==>
                  zone.Some? && (!timetableOk || !env.mosqueApi(pos.value.0, pos.value.1, MosqueRadius).NotOk?))
            && (e == MosqueFailed <==>
                  timetableOk && env.mosqueApi(pos.value.0, pos.value.1, MosqueRadius).NotOk?)
  {
  }

  /**
   * Where the route succeeds the action succeeds too, with the same zone, month, update
   * time, bearing and prayer rows, after the same zone lookup and prayer request. The two
   * differ in the mosque request: the route asks within 3 km and the action within 20 km,
   * so their mosque lists come from different answers.
   */
  lemma RouteSuccessImpliesActionSuccess(env: Services, latitude: Option<string>, longitude: Option<string>)
    requires Get(env, latitude, longitude).result.status == 200
    ensures var route := Get(env, latitude, longitude);
            var action := GetSolatAction.Outcome(env, latitude, longitude);
            var (lat, lng) := Position(env, latitude, longitude).value;
            var p := route.result.body.response;
            var q := action.result.response;
            && action.result.Success?
            && q.zon == p.zon && q.month == p.month && q.updatedAt == p.updatedAt
            && q.bearing == p.bearing && q.prayerTimes == p.prayerTimes
            && q.masjid == Some(GetSolatAction.MosquesOrEmpty(env.mosqueApi(lat, lng, GetSolatAction.MosqueRadius)))
            && |route.calls| == |action.calls| == 3
            && route.calls[..2] == action.calls[..2]
            && route.calls[2] == MosqueRequest(lat, lng, MosqueRadius)
            && action.calls[2] == MosqueRequest(lat, lng, GetSolatAction.MosqueRadius)
  {
  }

  /**
   * The policies differ on the mosque directory: once the timetable parsed, a non-ok answer
   * to the route's 3 km request fails the route with 500, while the action succeeds
   * whatever its 20 km request answers, with an empty list when that answer is not ok.
   */
  lemma MosquePoliciesDiffer(env: Services, latitude: Option<string>, longitude: Option<string>)
    requires Position(env, latitude, longitude).Some?
    requires var (lat, lng) := Position(env, latitude, longitude).value;
             && env.zoneAt(lat, lng).Some?
             && env.prayerApi(env.zoneAt(lat, lng).value.code).Ok?
             && env.prayerApi(env.zoneAt(lat, lng).value.code).body.Parsed?
    ensures var (lat, lng) := Position(env, latitude, longitude).value;
            && (env.mosqueApi(lat, lng, MosqueRadius).NotOk? ==>
                  Get(env, latitude, longitude).result == Reply(500, ErrorBody(MosqueFailed)))
            && GetSolatAction.Outcome(env, latitude, longitude).result.Success?
            && (!env.mosqueApi(lat, lng, GetSolatAction.MosqueRadius).Ok? ==>
                  GetSolatAction.Outcome(env, latitude, longitude).result.response.masjid == Some([]))
  {
  }

  /**
   * Wherever the action fails, the route fails too; they differ only in the texts and in
   * the route also failing on the mosque directory.
   */
  lemma ActionFailureImpliesRouteFailure(env: Services, latitude: Option<string>, longitude: Option<string>)
    requires GetSolatAction.Outcome(env, latitude, longitude).result.Failure?
    ensures Get(env, latitude, longitude).result.status != 200
    ensures Get(env, latitude, longitude).calls == GetSolatAction.Outcome(env, latitude, longitude).calls
  {
  }
}
