/**
 * What the prayer-time server code (the server action app/actions/getSolat.ts and the route
 * app/api/getSolat/route.ts) consumes from outside: `parseFloat`, the zone lookup by
 * coordinates, the prayer-time API, the mosque directory and the Qibla bearing table. Each is
 * a parameter here, so the two handlers become decisions over their outcomes. The external
 * calls a handler makes are returned as a trace.
 */
module SolatApi {
  import opened SolatTypes

  /** A parsed JSON body, or a body that `json()` rejects (with the error's message, if it is an Error). */
  datatype Body<T> = Parsed(value: T) | Malformed(message: Option<string>)

  /** How a `fetch` ends: it throws, answers with a non-ok status, or answers ok with a body. */
  datatype Fetch<T> = Threw(message: Option<string>) | NotOk(status: int) | Ok(body: Body<T>)

  /** The prayer-time API's timetable: month, last-updated instant and the daily rows. */
  datatype Timetable = Timetable(month: string, lastUpdated: int, prayers: seq<DayTimes>)

  /** One row of the bearing table: a zone code and its Qibla bearing in degrees. */
  datatype BearingEntry = BearingEntry(zone: string, bearingDegree: real)

  /**
   * The outside world. `parse` is `parseFloat`, with None standing for NaN; `zoneAt` is the
   * zone polygon lookup (latitude, longitude); `prayerApi` answers the request for a zone
   * code; `mosqueApi` answers the nearest-mosque request for a position and a search radius
   * in kilometres, whose body's `locationData` may be absent.
   */
  datatype Services = Services(
    parse: string -> Option<real>,
    zoneAt: (real, real) -> Option<Zone>,
    prayerApi: string -> Fetch<Timetable>,
    mosqueApi: (real, real, int) -> Fetch<Option<seq<Mosque>>>,
    bearings: seq<BearingEntry>)

  /** An external call a handler makes. */
  datatype Call = ZoneLookup(lat: real, lng: real) | PrayerRequest(code: string) | MosqueRequest(lat: real, lng: real, dist: int)

  /** A handler's answer together with the calls made to reach it, in order. */
  datatype Run<T> = Run(result: T, calls: seq<Call>)

  /** JavaScript's `!p` on a query parameter: absent or the empty string. */
  predicate Missing(p: Option<string>) {
    p.None? || p.value == ""
  }

  /**
   * The position a request asks about: both query parameters present, and both read as
   * numbers by `parse`.
   */
  function Position(env: Services, latitude: Option<string>, longitude: Option<string>): Option<(real, real)> {
    if Missing(latitude) || Missing(longitude) then None
    else
      var lat := env.parse(latitude.value);
      var lng := env.parse(longitude.value);
      if lat.None? || lng.None? then None else Some((lat.value, lng.value))
  }

  /** `find` on the bearing table: the position of the first row for `code`, or -1. */
  function FindZone(table: seq<BearingEntry>, code: string): (i: int)
    ensures -1 <= i < |table|
    ensures i >= 0 ==> table[i].zone == code
    ensures forall j :: 0 <= j < |table| && (i < 0 || j < i) ==> table[j].zone != code
  {
    if |table| == 0 then -1
    else if table[0].zone == code then 0
    else
      var k := FindZone(table[1..], code);
      if k < 0 then -1 else k + 1
  }

  /**
   * `bearingQ?.bearing_degree || 0`: the degree of the first row for the zone, or 0 when
   * the zone has no row (a row with degree 0 also gives 0).
   */
  function BearingFor(table: seq<BearingEntry>, code: string): real {
    var i := FindZone(table, code);
    if i < 0 then 0.0 else table[i].bearingDegree
  }

  /** The bearing is the degree of the first row for the zone, whatever rows follow it. */
  lemma BearingFirstMatch(table: seq<BearingEntry>, code: string, i: int)
    requires 0 <= i < |table| && table[i].zone == code
    requires forall j :: 0 <= j < i ==> table[j].zone != code
    ensures BearingFor(table, code) == table[i].bearingDegree
  {
  }

  /** A zone without a row gets bearing 0. */
  lemma BearingNoMatch(table: seq<BearingEntry>, code: string)
    requires forall j :: 0 <= j < |table| ==> table[j].zone != code
    ensures BearingFor(table, code) == 0.0
  {
  }

  /** Rows for other zones, placed before the first matching row, do not change the bearing. */
  lemma {:induction false} BearingSkipsOtherZones(other: seq<BearingEntry>, table: seq<BearingEntry>, code: string)
    requires forall j :: 0 <= j < |other| ==> other[j].zone != code
    ensures BearingFor(other + table, code) == BearingFor(table, code)
  {
    var k := FindZone(table, code);
    var n := FindZone(other + table, code);
    if k >= 0 {
      assert (other + table)[|other| + k].zone == code;
      assert n == |other| + k;
    } else {
      assert forall j :: 0 <= j < |table| ==> (other + table)[|other| + j] == table[j];
    }
  }
}
