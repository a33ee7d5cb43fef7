# Solat.Today: the prayer-time decision layer

Solat.Today shows Malaysian prayer times for the user's location, using the JAKIM zones. The
Dafny modules here model the decisions that sit between the external services and the
screen:

- **SolatTypes** (`types.dfy`) holds the shared records: a zone, a timetable row, a mosque
  entry and the assembled prayer-time response.
- **Utils** (`utils.dfy`) models `formatHijri` and `cap1st` from `lib/utils.ts`. It also
  models the pieces of JavaScript they rely on: `split`, `join`, `parseInt`, number
  printing and ASCII case mapping.
- **SolatPanel** (`solat_panel.dfy`) models the prayer panel:
  - which period "now" falls in, and which prayer comes next;
  - the `hh:mm:ss` countdown and its urgency class;
  - the day navigation of the timetable view.
- **CompassAccuracy** (`compass_accuracy.dfy`) models the compass stability check. It keeps
  a throttled history of the last ten rounded headings and analyses the average minor-arc
  change once there are five.
- **ZonIndicator** (`zon_indicator.dfy`) models the location and fetch gate: the saved and
  current location, and the five-minute / 0.001° cache test that decides whether prayer
  times are fetched again.
- **Home** (`page.dfy`) models the home page:
  - the mosque list: sorted by distance with unknown distances last, one entry per
    registration number, at most five;
  - the masjid tab badge;
  - the current and stored schedules.
- **SolatApi** (`services.dfy`) holds the outside world seen by the server code: `parseFloat`,
  the zone lookup, the prayer-time API, the mosque directory (asked for a position and a
  search radius: 20 km by the action, 3 km by the route) and the bearing table. It also
  holds the first-match-or-0 Qibla bearing lookup.
- **GetSolatAction** (`get_solat_action.dfy`) and **GetSolatRoute**
  (`get_solat_route.dfy`) model the server action and the route handler. Each is an
  error-precedence chain over the outcomes of those services, and each returns its answer
  together with the trace of external calls made.

Time is integer milliseconds for the clock and integer epoch seconds for timetable rows.
Coordinates, bearings and headings are exact reals.

## Model

| member | source | states |
|---|---|---|
| Utils.NatToString | lib/utils.ts:27 | a number prints as a non-empty run of digits without a leading zero; it is one digit exactly below 10, and at most two below 100 |
| Utils.NatToStringValue | lib/utils.ts:27 | the printed digits denote the number printed |
| Utils.ParseIntOfDigits | lib/utils.ts:10-12 | `ParseInt`, the model of `parseInt(s, 10)`, on a non-empty digit string, leading zeros allowed, is the value of the digits |
| Utils.ParseIntNatToString | lib/utils.ts:10-12 | `parseInt` reads back a printed number |
| Utils.Split | lib/utils.ts:9 | `split` gives at least one piece, and no piece contains the separator |
| Utils.JoinSplit | lib/utils.ts:33-37 | `Join`, the model of `join`, undoes `Split`: joining the pieces of a split with the same separator gives the string back |
| Utils.SplitThree | lib/utils.ts:9-12 | three separator-free pieces joined by the separator split back into exactly those three |
| Utils.MonthNameIsMonthIffInRange | lib/utils.ts:13-27 | `MonthName` (`hijriMonths[month]` printed) gives a name of the month table exactly when the month is 1 to 12; any other value, NaN included, prints "undefined", which is no month's name |
| Utils.MonthNumber | lib/utils.ts:13-26 | inverse of the month table: a name maps to the number whose entry it is, and a non-name to nothing |
| Utils.MonthNameRoundTrip | lib/utils.ts:13-27 | every month 1 to 12 has its own name: the name maps back to the same number |
| Utils.FormatHijriDigits | lib/utils.ts:8-28 | on "Y-M-D" made of digit groups, `FormatHijri` (the model of `formatHijri`) prints the day, the month's name and the year that the groups denote |
| Utils.FormatHijriRoundTrip | lib/utils.ts:8-28 | formatting a printed date gives "day MonthName yearH" for the same numbers |
| Utils.FormatHijriRamadhan | lib/utils.ts:8-28 | "1446-09-05" formats as "5 Ramadhan 1446H" |
| Utils.Capitalized | lib/utils.ts:31-38 | the specification of `cap1st` keeps the length of its input |
| Utils.CapitalizedAt | lib/utils.ts:31-38 | each character is upper-cased at a word start (first position or after a space) and lower-cased elsewhere |
| Utils.CapitalizedKeepsSpaces | lib/utils.ts:31-38 | the spaces stay exactly where they were |
| Utils.CapitalizedLowerInside | lib/utils.ts:32-35 | inside a word no capital letter survives |
| Utils.CapitalizedIdempotent | lib/utils.ts:31-38 | capitalising twice is capitalising once |
| Utils.JoinCapWords | lib/utils.ts:33-37 | capitalising each space-separated word and joining them with spaces is the character-wise specification |
| Utils.CapitalizeEach | lib/utils.ts:34-36 | the `forEach` overwrites every word of the array, in place, with its capitalised form (first character upper-cased, the rest kept) |
| Utils.Cap1st | lib/utils.ts:31-38 | the loop over the split words, which rewrites each word in place, returns the specified capitalisation |
| SolatPanel.CurrentPrayerGuardAgrees | components/solatPanel.tsx:87-110 | `CurrentPrayerAsWritten` models `getCurrentPrayer` as written, crashes included, and `CurrentPrayer` is its bounds-checked version; the guarded period lookup equals the written one wherever the written one returns, and the written one returns whenever yesterday, today and tomorrow have rows |
| SolatPanel.FirstOfMonthBeforeFajrCrashes | components/solatPanel.tsx:104-107 | on the first of the month before Fajr the written lookup reads the row before the first and throws; the guarded one answers no period |
| SolatPanel.LastDayAfterIshaCrashes | components/solatPanel.tsx:134 | on the last row after Isha both written lookups read the missing next row and throw |
| SolatPanel.LastDayBeforeFajrCrashes | components/solatPanel.tsx:104-107 | on the last row, after the previous day's Isha and up to that day's Fajr, the written getCurrentPrayer reads the missing next row and throws while the written getNextPrayer returns that day's Fajr; the guarded lookup gives no period |
| SolatPanel.PeriodsDisjoint | components/solatPanel.tsx:94-107 | on an ascending timetable no instant lies in two periods |
| SolatPanel.CurrentPrayerIsPeriod | components/solatPanel.tsx:91-109 | the lookup returns a period exactly when now lies in that period's window, and returns something exactly when now lies between yesterday's Isha and tomorrow's Fajr |
| SolatPanel.FajrInstantIsIsha | components/solatPanel.tsx:106-107 | from yesterday's Isha up to and including the instant of today's Fajr, the period is Isha (lower bounds are exclusive) |
| SolatPanel.NoCurrentPrayer | components/solatPanel.tsx:91-109 | without a clock reading or a timetable, or after tomorrow's Fajr, there is no period |
| SolatPanel.NextPrayerGuardAgrees | components/solatPanel.tsx:112-144 | `NextPrayerAsWritten` models `getNextPrayer` as written and `NextPrayer` is its bounds-checked version; the guarded next-prayer lookup equals the written one wherever the written one returns, and the written one returns whenever the neighbouring rows exist |
| SolatPanel.NextPrayerTotal | components/solatPanel.tsx:115-141 | with a clock reading and a row for today, some prayer is always announced |
| SolatPanel.NextPrayerIsEarliestAhead | components/solatPanel.tsx:118-137 | up to tomorrow's Fajr the announced prayer is the earliest of today's five prayers and tomorrow's Fajr that is not yet past |
| SolatPanel.NextPrayerStaleAfterTomorrow | components/solatPanel.tsx:138-140 | after tomorrow's Fajr the panel announces today's Fajr, which is already past |
| SolatPanel.NextPrayerNeverSyuruk | components/solatPanel.tsx:118-140 | Syuruk is never announced |
| SolatPanel.TimerCountdown | components/solatPanel.tsx:60-66 | minutes and seconds are below 60, and hours, minutes and seconds add up to the whole seconds between the two instants |
| SolatPanel.TimerCountdownSymmetric | components/solatPanel.tsx:63 | the countdown depends only on the distance between the instants |
| SolatPanel.PadTwo | components/solatPanel.tsx:67-69 | a padded field is all digits, at least two long, and exactly two below 100 |
| SolatPanel.PadTwoParses | components/solatPanel.tsx:67-69 | `parseInt` reads a padded field back |
| SolatPanel.CountdownTextLayout | components/solatPanel.tsx:67-71 | below 100 hours the text has eight characters with the colons at positions 2 and 5 |
| SolatPanel.CountdownTextRoundTrip | components/solatPanel.tsx:67-71 | for the text `CountdownText` builds, splitting it at the colons gives three fields that parse back to the hours, minutes and seconds |
| SolatPanel.CountdownExample | components/solatPanel.tsx:60-71 | 3700 s apart gives 1 h 1 min 40 s, shown "01:01:40" |
| SolatPanel.PulsateByDistance | components/solatPanel.tsx:76-84 | `PulsateClass` picks slow indigo from one hour on, red below sixteen minutes, orange in between; the initial indigo never comes back |
| SolatPanel.Panel.constructor | components/solatPanel.tsx:16-24 | the viewed index starts at the day of the month plus one, and the displayed day is today |
| SolatPanel.Panel.IncrementIndex | components/solatPanel.tsx:147-162 | index and day advance together only while a later row exists, and the index stays in range |
| SolatPanel.Panel.DecrementIndex | components/solatPanel.tsx:165-180 | index and day go back together only while the index is positive, and the index stays in range |
| SolatPanel.Panel.Tick | components/solatPanel.tsx:112-144 | a tick announces the next prayer and shows the countdown text and class toward it; it passes the current period to the badge only when there is one, and changes nothing without a clock reading or today's row |
| CompassAccuracy.Round | components/compassAccuracy.tsx:41 | the rounded heading is within half a degree, halves rounding up |
| CompassAccuracy.RoundHeading | components/compassAccuracy.tsx:41 | headings in [0, 360) round into [0, 360] |
| CompassAccuracy.KeepLast | components/compassAccuracy.tsx:44 | `slice(-10)` keeps the last min(10, n) readings, as a suffix |
| CompassAccuracy.AppendEvictsOldest | components/compassAccuracy.tsx:42-44 | appending to a history of at most ten keeps at most ten and ends with the new reading; the oldest is dropped only when the history was full |
| CompassAccuracy.MinorArcIsShorterTurn | components/compassAccuracy.tsx:62-66 | the wrap-around difference `MinorArc` is the shorter of the two turns modulo 360, lies in [0, 180] and is symmetric |
| CompassAccuracy.MinorArcExamples | components/compassAccuracy.tsx:62-66 | 350° to 10° is 20° either way; 0° to 180° is 180° |
| CompassAccuracy.Variations | components/compassAccuracy.tsx:58-68 | one difference per consecutive pair of readings |
| CompassAccuracy.AnalyzeStability | components/compassAccuracy.tsx:57-90 | the loop that collects the differences, followed by the averaging and the classification, gives the verdict of the specification |
| CompassAccuracy.StabilityByAverage | components/compassAccuracy.tsx:71-88 | in the verdict `Stability`, calibration is needed exactly when the average exceeds 15°; confidence is then low above 30°, medium above 20° and high otherwise |
| CompassAccuracy.StabilitySurfacesOnlyWhenStable | components/compassAccuracy.tsx:74-89 | the last reading goes to the compass exactly when no calibration is needed, with high confidence |
| CompassAccuracy.ConstantReadingsAreStable | components/compassAccuracy.tsx:61-88 | an unchanging heading is stable and is passed on |
| CompassAccuracy.AverageAtMostHalfTurn | components/compassAccuracy.tsx:61-71 | the summed differences of headings in [0, 360] lie between 0 and 180 per difference |
| CompassAccuracy.QuarterTurnsAreUnstable | components/compassAccuracy.tsx:57-90 | headings 0, 90, 180, 270, 0 average 90°: calibration needed, low confidence |
| CompassAccuracy.Calibrator.constructor | components/compassAccuracy.tsx:20-24 | empty history, no flag, no confidence, guide closed |
| CompassAccuracy.Calibrator.OnOrientation | components/compassAccuracy.tsx:27-54 | a sample that is unsupported, not permitted, has a falsy heading or comes within 200 ms changes nothing; otherwise it records the time and appends the rounded heading to the last ten, and from five readings on applies the verdict; the history never exceeds ten |
| CompassAccuracy.Calibrator.OpenCalibrationGuide | components/compassAccuracy.tsx:123 | the Calibrate button opens the guide |
| CompassAccuracy.Calibrator.CalibrationComplete | components/compassAccuracy.tsx:93-97 | finishing calibration closes the guide, empties the history and clears the flag, leaving the confidence as it was |
| ZonIndicator.SkipIffFreshAndUnmoved | components/zonIndicator.tsx:139-144 | the skip test `SkipFetch` (the inline 0.001° test of `getSolat`) agrees with the callback's refetch test `CacheExpired` or `HasLocationChanged` (lines 95-97 and 119): a fetch is skipped exactly when data is present, the cache is under five minutes old and the location has not moved by more than 0.001° by the same test that decides a location update |
| ZonIndicator.DisplacementBoundary | components/zonIndicator.tsx:95-97 | a move of exactly 0.001° is not a move; 0.0011° on one axis is |
| ZonIndicator.ClientOutcomeOfRoute | components/zonIndicator.tsx:154-171 | `ReplyOutcome` turns the route's reply into what the component sees; against the route it loads exactly the payload of a 200 reply, and every other reply fails with one of the route's five error texts, never an empty message |
| ZonIndicator.Indicator.constructor | components/zonIndicator.tsx:16-36 | the saved location comes from storage and everything else starts empty, with the refs at 0 and null |
| ZonIndicator.Indicator.ProcessLocation | components/zonIndicator.tsx:52-126 | an error or a pending fix falls back to the saved location; a fix is taken only when there is no current location or it moved, and then the call time is renewed when it moved or the cache expired; otherwise "Failed to get location" |
| ZonIndicator.Indicator.FetchCheck | components/zonIndicator.tsx:134-183 | a fetch happens exactly when there is a current location and the skip test fails; success stores the data, hands it to the page and records time and coordinates; failure only sets the error |
| ZonIndicator.Indicator.ManualRefresh | components/zonIndicator.tsx:39-48 | refresh forgets the saved and current location and the data, here and on the page, shows loading and resets both refs |
| ZonIndicator.FetchRightAfterMove | components/zonIndicator.tsx:106-147 | after a fix that moved, a fetch check at the same instant is skipped whenever data is present |
| ZonIndicator.SecondNearbyFixDoesNotRefetch | components/zonIndicator.tsx:95-122 | a second fix within 0.001° does not set the location, so no second fetch is triggered |
| Home.SortByDistanceCorrect | app/page.tsx:33-42 | the sorted copy `SortByDistance` is a permutation of the mosque list and is ordered by the comparator |
| Home.SortedUndefinedLast | app/page.tsx:34-41 | in sorted order no entry without a distance precedes one with a distance, and known distances ascend |
| Home.FindIndex | app/page.tsx:80 | `findIndex` gives the first position holding the number, or -1 when there is none |
| Home.DedupCorrect | app/page.tsx:79-80 | the filtered list `Dedup` (the filter `KeepFirstFrom`) has distinct numbers and draws from the input; every number of the input is kept, through its first entry; the kept entries stay in input order |
| Home.DedupKeepsSorted | app/page.tsx:79-80 | filtering a list sorted by distance leaves it sorted |
| Home.ListedCorrect | app/page.tsx:79-81 | the listed mosques `Listed` number at most five, have distinct numbers, are in distance order, are a prefix of the deduplicated sorted list and come from the input |
| Home.BadgeIsNearest | app/page.tsx:97 | the badge `Badge` exists exactly when there are mosques, shows one of them, and that one has the smallest known distance whenever a distance is known |
| Home.UpdateJadual | app/page.tsx:21-24 | the current and stored schedules both become the new one |
| Home.AdoptStored | app/page.tsx:46-52 | a stored schedule becomes the current one; with none stored nothing changes |
| SolatApi.FindZone | app/actions/getSolat.ts:81 | `find` gives the first row for the zone, or none |
| SolatApi.BearingFirstMatch | app/actions/getSolat.ts:81-82 | the bearing `BearingFor` is the degree of the first row for the zone |
| SolatApi.BearingNoMatch | app/api/getSolat/route.ts:103 | a zone without a row gets bearing 0 |
| SolatApi.BearingSkipsOtherZones | app/actions/getSolat.ts:81 | rows of other zones before the match do not change the bearing |
| GetSolatAction.GetSolatData | app/actions/getSolat.ts:38-116 | the early-return steps give the outcome and call trace of `Outcome`, the action as a function of the services |
| GetSolatAction.ActionValidationOrder | app/actions/getSolat.ts:41-61 | a missing parameter is reported first and with no call; an unparsable one comes next, before any zone lookup; a missing zone is reported after the lookup alone; a prayer request is only ever for the zone found |
| GetSolatAction.MosqueFailureDegrades | app/actions/getSolat.ts:84-108 | no failure follows the mosque request; the action succeeds exactly when the parameters parse, the zone exists and the timetable arrives and parses |
| GetSolatAction.ActionSuccessPassesThrough | app/actions/getSolat.ts:101-108 | on success the zone, month, update time and prayers pass through, the bearing is the table's, and the mosque list is present: the `locationData` of the 20 km request, or empty when that request was not ok or had none; the calls are zone, prayer, mosque within 20 km |
| GetSolatAction.ActionErrorTexts | app/actions/getSolat.ts:43-114 | every error is one of the fixed texts or the message of the Error caught while reading the timetable of the zone found at the parsed position |
| GetSolatRoute.RouteStatusClasses | app/api/getSolat/route.ts:46-117 | for the handler `Get`, the status is 200, 400 or 500; 200 exactly with a payload; 400 exactly when a parameter is missing or does not parse |
| GetSolatRoute.RouteValidationOrder | app/api/getSolat/route.ts:46-72 | missing parameters give 400 with no call, unparsable ones 400 with no call, a missing zone 500 after the lookup alone |
| GetSolatRoute.RouteSuccessPassesThrough | app/api/getSolat/route.ts:99-110 | on 200 the zone, month, update time, prayers and bearing pass through, and the mosque list is the `locationData` of the 3 km request as it came, absent included; the calls are zone, prayer, mosque within 3 km |
| GetSolatRoute.RouteErrorTexts | app/api/getSolat/route.ts:46-117 | every failure has one of five error texts; "Failed to retrieve prayer times" exactly when the zone is known and the timetable is not ok or does not parse, or the mosque request throws or does not parse; "Failed to retrieve JAKIM mosque" exactly for a non-ok mosque answer after a good timetable |
| GetSolatRoute.RouteSuccessImpliesActionSuccess | app/api/getSolat/route.ts:99-110 | when the route answers 200 the action succeeds with the same zone, month, update time, bearing and prayers after the same first two calls; the mosque lists come from different requests (3 km and 20 km) |
| GetSolatRoute.MosquePoliciesDiffer | app/api/getSolat/route.ts:90-96 | once the timetable parsed, a non-ok answer to the route's 3 km request fails the route with 500 "Failed to retrieve JAKIM mosque", while the action succeeds whatever its 20 km request answers, with no mosques when that answer is not ok |
| GetSolatRoute.ActionFailureImpliesRouteFailure | app/api/getSolat/route.ts:36-119 | wherever the action fails, the route fails too, after the same calls |

`GetSolatAction` defines the action twice on purpose. `Outcome` is a function, so lemmas
can state properties of it and relate it to the route. `GetSolatData` is the handler's own
step-by-step form with early returns, and its contract says that it computes `Outcome`.

## Left out

- Browser and network I/O are parameters or are left out:
  - the fetches, the JSON bodies, local storage, geolocation and device orientation;
  - the clipboard and WhatsApp sharing;
  - the one-second `setTimeout` tick (each tick is one `Tick` call).
- Clock readings are parameters; the day of the month is passed in.
- Locale formatting is left out: `toLocaleTimeString`, `toLocaleDateString`, `toFixed(2)` on
  the badge and the bearing, and the prayer instants shown next to each prayer.
- JavaScript numbers are exact `real`s and `int`s here. The model does not capture
  floating-point rounding in the 0.001° test, in the average, or in `Math.round`. It also
  does not capture the truncation of `getTimerCountdown`'s instants to whole milliseconds
  through `new Date(seconds * 1000)`: the clock reading is taken already in whole
  milliseconds. Nor does it capture a distance that `parseFloat` reads as NaN, which makes
  the sort comparator inconsistent.
- SolatApi.Services: `parseFloat` is abstract, with NaN as None. The model does not define
  which strings parse.
- Utils.ParseInt: white space is the six ASCII white-space characters. The rest of
  JavaScript's Unicode white space is not modelled.
- Utils.LowerChar: case mapping is ASCII only. Non-ASCII letters are left unchanged.
- Home.SortByDistance: the distance is modelled already parsed. The model specifies only
  the order of entries with a distance relative to each other and to those without one.
  With two undefined distances the source comparator answers 1 both ways, so their relative
  order is not modelled.
- The zone lookup is abstract. The polygon search of `lib/solat/getZonJakim.ts` and
  `zonJakim.json` are not part of this model, and neither is `bearing.json`: the bearing
  table is a parameter.
- The zone lookup, `new URL` and `new Date(last_updated)` are taken never to throw. The
  timestamp is taken already converted to an integer.
- ZonIndicator.Indicator.FetchCheck: the asynchronous fetch is modelled as one atomic step
  at clock reading `now`. Other events between the request and its answer are not modelled.
- ZonIndicator.Indicator: the React effect re-runs are made explicit. `ProcessLocation`
  returns whether the location was set, and the caller runs `FetchCheck` then. The
  compass effect's own re-run on `lastCheckedTime` is one `OnOrientation` call per sample.
- CompassAccuracy.Calibrator.OnOrientation: the heading is surfaced to the page only through
  its result. `updateReading` and the page's compass value are not a separate state.
- `isAlignedWithQiblat` is imported by the page but not defined in `lib/heading.ts`, so the
  Qibla/Compass label and its colour are not modelled. The rest of `lib/heading.ts` (sensor
  events and permission requests) is left out as well.
- Pure rendering is not modelled: the mosque list modal, the maps, the header, the layout
  and the translation routes.
- SolatPanel.Panel.Tick: a tick uses the bounds-checked lookups `CurrentPrayer` and
  `NextPrayer`, not the written ones, so on the three paths where the source throws it does
  more than the source. On the 1st of the month before Fajr, and on the last row between
  the previous day's Isha and that day's Fajr, the source sets the next prayer (that day's
  Fajr) and the countdown text, then throws in `getCurrentPrayer` before updating the
  current period and the urgency class; `Tick` updates all four. On the last row after
  Isha the source throws before setting anything; `Tick` announces today's Fajr. The three
  paths are stated separately by `FirstOfMonthBeforeFajrCrashes`,
  `LastDayBeforeFajrCrashes` and `LastDayAfterIshaCrashes`.
- SolatPanel.Panel: the Hijri line and the prayer table render rows `index` and
  `getDate() + 1`. An index past the end of the timetable throws while rendering; this
  rendering is not modelled.

## Findings

| source | as written | input that shows it | evidently intended | confidence | as-written member | corrected member |
|---|---|---|---|---|---|---|
| components/solatPanel.tsx:104-107 | the last two branches of `getCurrentPrayer` read `prayerTimes[today - 1]` and `prayerTimes[today + 1]` with no bounds check | 1st of the month (`today` = 0), any time before that day's Fajr: the last branch reads a field of `prayerTimes[-1]`, which is undefined, and throws; also the last row of the timetable, after the previous day's Isha and up to that day's Fajr: the last branch reads `prayerTimes[today + 1]`, which is undefined, and throws. In both cases the next prayer and countdown are already set, and the tick stops before the badge and the urgency class are updated | a missing neighbouring row makes that branch false, so the lookup answers without throwing | medium, not executed | SolatPanel.FirstOfMonthBeforeFajrCrashes, SolatPanel.LastDayBeforeFajrCrashes | SolatPanel.CurrentPrayerGuardAgrees |
| components/solatPanel.tsx:134 | `getNextPrayer` reads `prayerTimes[today + 1]` once today's Isha has passed | last day of the month, after Isha: tomorrow's row is undefined, so reading its Fajr throws on every tick: a panel already open keeps the Isha announcement and the countdown text and class of its last successful tick, frozen; a page opened after Isha shows no next prayer or countdown | without tomorrow's row that branch is skipped, and the final fallback announces a prayer | medium, not executed | SolatPanel.LastDayAfterIshaCrashes | SolatPanel.NextPrayerGuardAgrees |
