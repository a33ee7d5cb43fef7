/**
 * Records shared by the prayer-time server code, the zone indicator and the home page:
 * a zone, a timetable row, a mosque entry and the assembled prayer-time response.
 */
module SolatTypes {

  datatype Option<+T> = None | Some(value: T) {
    /** The value, or `default` when absent (JavaScript's `x || default` on an object). */
    function GetOr(default: T): T {
      match this
      case Some(v) => v
      case None => default
    }
  }

  /** An administrative prayer-time zone as returned by the zone lookup. */
  datatype Zone = Zone(code: string, state: string, district: string)

  /** A latitude/longitude pair in degrees. */
  datatype Coord = Coord(lat: real, lng: real)

  /**
   * One day of a month's timetable: the Hijri date string ("Y-M-D") and six instants in
   * epoch seconds.
   */
  datatype DayTimes = DayTimes(
    hijri: string,
    fajr: int, syuruk: int, dhuhr: int, asr: int, maghrib: int, isha: int)

  /**
   * A mosque from the mosque directory. `distance` is the value `parseFloat` gives for the
   * record's distance string, and None when the record has no distance.
   */
  datatype Mosque = Mosque(noDaftar: string, name: string, distance: Option<real>)

  /**
   * The prayer-time payload handed to the page. `masjid` is None when the mosque payload had
   * no `locationData` and no fallback was applied.
   */
  datatype GetSolatResponse = GetSolatResponse(
    zon: Zone,
    month: string,
    updatedAt: int,
    bearing: real,
    masjid: Option<seq<Mosque>>,
    prayerTimes: seq<DayTimes>)
}
