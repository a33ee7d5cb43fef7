/**
 * The prayer panel of components/solatPanel.tsx: which prayer period "now" falls in, which
 * prayer is announced next, the countdown to it with its urgency class, and the +/- day
 * navigation. "Now" is a clock reading in milliseconds; timetable instants are epoch seconds,
 * so the source's `now / 1000 > t` is `now > 1000 * t` here.
 */
module SolatPanel {
  import opened SolatTypes
  import Utils

  /** The labels getCurrentPrayer returns. */
  datatype Period = Fajr | Dhuha | Zuhr | Asr | Maghrib | Isha

  /** The timetable columns, naming the prayer getNextPrayer announces. */
  datatype Prayer = Fajr | Syuruk | Dhuhr | Asr | Maghrib | Isha

  /** What getNextPrayer stores: the prayer and its instant (epoch seconds). */
  datatype Upcoming = Upcoming(prayer: Prayer, time: int)

  /** `now` lies in the window (lo, hi]: lower bound exclusive, upper bound inclusive. */
  predicate Within(nowMs: int, lo: int, hi: int) {
    1000 * lo < nowMs <= 1000 * hi
  }

  /** The indices the panel reads: yesterday, today and tomorrow all exist. */
  predicate DayIndexOk(schedule: seq<DayTimes>, today: int) {
    1 <= today && today + 1 < |schedule|
  }

  /** A day's six instants strictly ascend. */
  predicate Ascending(d: DayTimes) {
    d.fajr < d.syuruk < d.dhuhr < d.asr < d.maghrib < d.isha
  }

  /**
   * The three days around `today` are each ascending and follow one another: yesterday's
   * Isha comes before today's Fajr, today's Isha before tomorrow's Fajr.
   */
  predicate WellOrdered(schedule: seq<DayTimes>, today: int)
    requires DayIndexOk(schedule, today)
  {
    var y, t, m := schedule[today - 1], schedule[today], schedule[today + 1];
    Ascending(y) && Ascending(t) && Ascending(m) && y.isha < t.fajr && t.isha < m.fajr
  }

  // ---------------------------------------------------------------------------------------
  // getCurrentPrayer
  // ---------------------------------------------------------------------------------------

  /** How evaluating a lookup ends: with a value, or with a TypeError from reading a missing day. */
  datatype Eval<T> = Returned(value: T) | Crashed

  /** Row `i` of the timetable, if there is one (JavaScript gives `undefined` otherwise). */
  predicate HasDay(schedule: seq<DayTimes>, i: int) {
    0 <= i < |schedule|
  }

  /**
   * getCurrentPrayer as written: None while there is no clock reading or no timetable,
   * otherwise the first window of the if-chain that contains now. Each condition reads the
   * rows it names only when evaluation reaches them (`&&` short-circuits), and reading a
   * field of a missing row throws.
   */
  function CurrentPrayerAsWritten(now: Option<int>, schedule: seq<DayTimes>, today: int): Eval<Option<Period>> {
    if now.None? || |schedule| == 0 then Returned(None)
    else if !HasDay(schedule, today) then Crashed
    else
      var n, t := now.value, schedule[today];
      if Within(n, t.fajr, t.syuruk) then Returned(Some(Period.Fajr))
      else if Within(n, t.syuruk, t.dhuhr) then Returned(Some(Dhuha))
      else if Within(n, t.dhuhr, t.asr) then Returned(Some(Zuhr))
      else if Within(n, t.asr, t.maghrib) then Returned(Some(Period.Asr))
      else if Within(n, t.maghrib, t.isha) then Returned(Some(Period.Maghrib))
      else if n > 1000 * t.isha && !HasDay(schedule, today + 1) then Crashed
      else if n > 1000 * t.isha && n <= 1000 * schedule[today + 1].fajr then Returned(Some(Period.Isha))
      else if !HasDay(schedule, today - 1) then Crashed
      else if n > 1000 * schedule[today - 1].isha && !HasDay(schedule, today + 1) then Crashed
      else if n > 1000 * schedule[today - 1].isha && n <= 1000 * schedule[today + 1].fajr
      then Returned(Some(Period.Isha))
      else Returned(None)
  }

  /**
   * getCurrentPrayer with the missing-row reads guarded: a condition that needs a row the
   * timetable lacks is false instead of throwing. The panel uses this one.
   */
  function CurrentPrayer(now: Option<int>, schedule: seq<DayTimes>, today: int): Option<Period> {
    if now.None? || !HasDay(schedule, today) then None
    else
      var n, t := now.value, schedule[today];
      if Within(n, t.fajr, t.syuruk) then Some(Period.Fajr)
      else if Within(n, t.syuruk, t.dhuhr) then Some(Dhuha)
      else if Within(n, t.dhuhr, t.asr) then Some(Zuhr)
      else if Within(n, t.asr, t.maghrib) then Some(Period.Asr)
      else if Within(n, t.maghrib, t.isha) then Some(Period.Maghrib)
      else if HasDay(schedule, today + 1) && Within(n, t.isha, schedule[today + 1].fajr)
      then Some(Period.Isha)
      else if HasDay(schedule, today - 1) && HasDay(schedule, today + 1)
              && Within(n, schedule[today - 1].isha, schedule[today + 1].fajr)
      then Some(Period.Isha)
      else None
  }

  /**
   * The guarded lookup changes nothing where the written one returns, and the written one
   * returns whenever yesterday, today and tomorrow all have rows.
   */
  lemma CurrentPrayerGuardAgrees(now: Option<int>, schedule: seq<DayTimes>, today: int)
    ensures CurrentPrayerAsWritten(now, schedule, today).Returned? ==>
              CurrentPrayerAsWritten(now, schedule, today).value == CurrentPrayer(now, schedule, today)
    ensures DayIndexOk(schedule, today) ==> CurrentPrayerAsWritten(now, schedule, today).Returned?
  {
  }

  /**
   * On the first day of the month (`today` is 0), from midnight up to Fajr the written
   * lookup reaches the last branch and reads the row before the first one: it throws.
   */
  lemma FirstOfMonthBeforeFajrCrashes(nowMs: int, schedule: seq<DayTimes>)
    requires |schedule| > 0 && nowMs <= 1000 * schedule[0].fajr
    requires Ascending(schedule[0])
    ensures CurrentPrayerAsWritten(Some(nowMs), schedule, 0) == Crashed
    ensures CurrentPrayer(Some(nowMs), schedule, 0).None?
  {
  }

  /** On the last day of the timetable, after Isha, both lookups read the missing next row and throw. */
  lemma LastDayAfterIshaCrashes(nowMs: int, schedule: seq<DayTimes>)
    requires |schedule| > 0 && nowMs > 1000 * schedule[|schedule| - 1].isha
    requires Ascending(schedule[|schedule| - 1])
    ensures CurrentPrayerAsWritten(Some(nowMs), schedule, |schedule| - 1) == Crashed
    ensures NextPrayerAsWritten(Some(nowMs), schedule, |schedule| - 1) == Crashed
  {
  }

  /**
   * On the last day of the timetable, between yesterday's Isha and today's Fajr, the next
   * prayer (today's Fajr) is found, but the current-period lookup reaches the last branch,
   * reads the missing next row and throws.
   */
  lemma LastDayBeforeFajrCrashes(nowMs: int, schedule: seq<DayTimes>)
    requires |schedule| >= 2 && Ascending(schedule[|schedule| - 1])
    requires 1000 * schedule[|schedule| - 2].isha < nowMs <= 1000 * schedule[|schedule| - 1].fajr
    ensures CurrentPrayerAsWritten(Some(nowMs), schedule, |schedule| - 1) == Crashed
    ensures NextPrayerAsWritten(Some(nowMs), schedule, |schedule| - 1)
              == Returned(Some(Upcoming(Prayer.Fajr, schedule[|schedule| - 1].fajr)))
    ensures CurrentPrayer(Some(nowMs), schedule, |schedule| - 1).None?
  {
  }

  /**
   * The window of each period as the timetable defines it. Isha runs from today's Isha to
   * tomorrow's Fajr, and also covers the night before today's Fajr (from yesterday's Isha).
   */
  predicate InPeriod(p: Period, nowMs: int, y: DayTimes, t: DayTimes, m: DayTimes) {
    match p
    case Fajr => Within(nowMs, t.fajr, t.syuruk)
    case Dhuha => Within(nowMs, t.syuruk, t.dhuhr)
    case Zuhr => Within(nowMs, t.dhuhr, t.asr)
    case Asr => Within(nowMs, t.asr, t.maghrib)
    case Maghrib => Within(nowMs, t.maghrib, t.isha)
    case Isha => Within(nowMs, y.isha, t.fajr) || Within(nowMs, t.isha, m.fajr)
  }

  /** On an ascending timetable no instant lies in two periods. */
  lemma PeriodsDisjoint(p: Period, q: Period, nowMs: int, schedule: seq<DayTimes>, today: int)
    requires DayIndexOk(schedule, today) && WellOrdered(schedule, today)
    requires InPeriod(p, nowMs, schedule[today - 1], schedule[today], schedule[today + 1])
    requires InPeriod(q, nowMs, schedule[today - 1], schedule[today], schedule[today + 1])
    ensures p == q
  {
  }

  /**
   * getCurrentPrayer returns a period exactly when now lies in that period's window, and
   * returns something exactly when now lies between yesterday's Isha and tomorrow's Fajr.
   */
  lemma CurrentPrayerIsPeriod(nowMs: int, schedule: seq<DayTimes>, today: int)
    requires DayIndexOk(schedule, today) && WellOrdered(schedule, today)
    ensures var y, t, m := schedule[today - 1], schedule[today], schedule[today + 1];
            forall p: Period ::
              (CurrentPrayer(Some(nowMs), schedule, today) == Some(p) <==> InPeriod(p, nowMs, y, t, m))
    ensures var y, m := schedule[today - 1], schedule[today + 1];
            CurrentPrayer(Some(nowMs), schedule, today).Some? <==> Within(nowMs, y.isha, m.fajr)
  {
  }

  /**
   * At the very instant of today's Fajr, and anywhere between yesterday's Isha and it, the
   * period is still Isha: a window's lower bound is exclusive.
   */
  lemma FajrInstantIsIsha(nowMs: int, schedule: seq<DayTimes>, today: int)
    requires DayIndexOk(schedule, today) && WellOrdered(schedule, today)
    requires Within(nowMs, schedule[today - 1].isha, schedule[today].fajr)
    ensures CurrentPrayer(Some(nowMs), schedule, today) == Some(Period.Isha)
  {
  }

  /** Without a clock reading or a timetable, or after tomorrow's Fajr, there is no period. */
  lemma NoCurrentPrayer(now: Option<int>, schedule: seq<DayTimes>, today: int)
    requires |schedule| > 0 ==> DayIndexOk(schedule, today) && WellOrdered(schedule, today)
    requires now.None? || |schedule| == 0 || now.value > 1000 * schedule[today + 1].fajr
    ensures CurrentPrayer(now, schedule, today).None?
  {
  }

  // ---------------------------------------------------------------------------------------
  // getNextPrayer
  // ---------------------------------------------------------------------------------------

  /**
   * getNextPrayer as written: Dhuhr from Fajr on (so Syuruk is skipped), then Asr, Maghrib,
   * Isha, tomorrow's Fajr after Isha, and today's Fajr in every other case. Tomorrow's row is
   * read only after today's Isha, and reading a missing row throws.
   */
  function NextPrayerAsWritten(now: Option<int>, schedule: seq<DayTimes>, today: int): Eval<Option<Upcoming>> {
    if now.None? || |schedule| == 0 then Returned(None)
    else if !HasDay(schedule, today) then Crashed
    else
      var n, t := now.value, schedule[today];
      if Within(n, t.fajr, t.dhuhr) then Returned(Some(Upcoming(Dhuhr, t.dhuhr)))
      else if Within(n, t.dhuhr, t.asr) then Returned(Some(Upcoming(Prayer.Asr, t.asr)))
      else if Within(n, t.asr, t.maghrib) then Returned(Some(Upcoming(Prayer.Maghrib, t.maghrib)))
      else if Within(n, t.maghrib, t.isha) then Returned(Some(Upcoming(Prayer.Isha, t.isha)))
      else if n > 1000 * t.isha && !HasDay(schedule, today + 1) then Crashed
      else if n > 1000 * t.isha && n <= 1000 * schedule[today + 1].fajr
      then Returned(Some(Upcoming(Prayer.Fajr, schedule[today + 1].fajr)))
      else Returned(Some(Upcoming(Prayer.Fajr, t.fajr)))
  }

  /**
   * getNextPrayer with the read of tomorrow's row guarded: without that row the branch is
   * skipped and today's Fajr is announced. The panel uses this one.
   */
  function NextPrayer(now: Option<int>, schedule: seq<DayTimes>, today: int): Option<Upcoming> {
    if now.None? || !HasDay(schedule, today) then None
    else
      var n, t := now.value, schedule[today];
      if Within(n, t.fajr, t.dhuhr) then Some(Upcoming(Dhuhr, t.dhuhr))
      else if Within(n, t.dhuhr, t.asr) then Some(Upcoming(Prayer.Asr, t.asr))
      else if Within(n, t.asr, t.maghrib) then Some(Upcoming(Prayer.Maghrib, t.maghrib))
      else if Within(n, t.maghrib, t.isha) then Some(Upcoming(Prayer.Isha, t.isha))
      else if HasDay(schedule, today + 1) && Within(n, t.isha, schedule[today + 1].fajr)
      then Some(Upcoming(Prayer.Fajr, schedule[today + 1].fajr))
      else Some(Upcoming(Prayer.Fajr, t.fajr))
  }

  /**
   * The guarded lookup changes nothing where the written one returns, and the written one
   * returns whenever today's row exists and, after Isha, tomorrow's does too.
   */
  lemma NextPrayerGuardAgrees(now: Option<int>, schedule: seq<DayTimes>, today: int)
    ensures NextPrayerAsWritten(now, schedule, today).Returned? ==>
              NextPrayerAsWritten(now, schedule, today).value == NextPrayer(now, schedule, today)
    ensures DayIndexOk(schedule, today) ==> NextPrayerAsWritten(now, schedule, today).Returned?
  {
  }

  /** With a clock reading and today's row the guarded lookup always announces something. */
  lemma NextPrayerTotal(nowMs: int, schedule: seq<DayTimes>, today: int)
    requires HasDay(schedule, today)
    ensures NextPrayer(Some(nowMs), schedule, today).Some?
  {
  }

  /** The instants getNextPrayer may announce: today's five prayers and tomorrow's Fajr. */
  function Announceable(t: DayTimes, m: DayTimes): seq<(Prayer, int)> {
    [(Prayer.Fajr, t.fajr), (Dhuhr, t.dhuhr), (Prayer.Asr, t.asr), (Prayer.Maghrib, t.maghrib),
     (Prayer.Isha, t.isha), (Prayer.Fajr, m.fajr)]
  }

  /**
   * Up to tomorrow's Fajr, the announced prayer is the earliest announceable one not yet
   * past (a prayer whose instant is now still counts), so Syuruk is never announced.
   */
  lemma NextPrayerIsEarliestAhead(nowMs: int, schedule: seq<DayTimes>, today: int)
    requires DayIndexOk(schedule, today) && WellOrdered(schedule, today)
    requires nowMs <= 1000 * schedule[today + 1].fajr
    ensures var t, m := schedule[today], schedule[today + 1];
            var r := NextPrayer(Some(nowMs), schedule, today);
            var a := Announceable(t, m);
            && r.Some?
            && (r.value.prayer, r.value.time) in a
            && nowMs <= 1000 * r.value.time
            && forall i :: 0 <= i < |a| && nowMs <= 1000 * a[i].1 ==> r.value.time <= a[i].1
  {
  }

  /** After tomorrow's Fajr the panel keeps announcing today's Fajr, which is already past. */
  lemma NextPrayerStaleAfterTomorrow(nowMs: int, schedule: seq<DayTimes>, today: int)
    requires DayIndexOk(schedule, today) && WellOrdered(schedule, today)
    requires nowMs > 1000 * schedule[today + 1].fajr
    ensures NextPrayer(Some(nowMs), schedule, today)
         == Some(Upcoming(Prayer.Fajr, schedule[today].fajr))
    ensures 1000 * schedule[today].fajr < nowMs
  {
  }

  /** Syuruk is never announced. */
  lemma NextPrayerNeverSyuruk(now: Option<int>, schedule: seq<DayTimes>, today: int)
    ensures var r := NextPrayer(now, schedule, today); r.Some? ==> r.value.prayer != Syuruk
  {
  }

  // ---------------------------------------------------------------------------------------
  // getTimerCountdown
  // ---------------------------------------------------------------------------------------

  datatype Countdown = Countdown(hours: nat, minutes: nat, seconds: nat)

  function Abs(x: int): nat {
    if x < 0 then -x else x
  }

  /** Hours, minutes and seconds of a duration in milliseconds add up to its whole seconds. */
  lemma MillisSplit(d: nat)
    ensures (d % 3600000) / 60000 < 60 && (d % 60000) / 1000 < 60
    ensures 3600 * (d / 3600000) + 60 * ((d % 3600000) / 60000) + (d % 60000) / 1000 == d / 1000
  {
    var h, r := d / 3600000, d % 3600000;
    var m, rest := r / 60000, r % 60000;
    assert d == 60000 * (60 * h + m) + rest;
    assert d % 60000 == rest;
    assert d == 1000 * (3600 * h + 60 * m) + rest;
    assert d / 1000 == 3600 * h + 60 * m + rest / 1000;
  }

  /**
   * The countdown between two instants in milliseconds: whole hours, then the minutes and
   * seconds left over, each truncated.
   */
  function TimerCountdown(currentMs: int, upcomingMs: int): (c: Countdown)
    ensures c.minutes < 60 && c.seconds < 60
    ensures 3600 * c.hours + 60 * c.minutes + c.seconds == Abs(currentMs - upcomingMs) / 1000
  {
    var d := Abs(currentMs - upcomingMs);
    MillisSplit(d);
    Countdown(d / 3600000, (d % 3600000) / 60000, (d % 60000) / 1000)
  }

  /** The countdown depends only on the distance between the two instants. */
  lemma TimerCountdownSymmetric(a: int, b: int)
    ensures TimerCountdown(a, b) == TimerCountdown(b, a)
  {
    assert Abs(a - b) == Abs(b - a);
  }

  /** `n.toString().padStart(2, '0')`. */
  function PadTwo(n: nat): (s: string)
    ensures |s| >= 2 && Utils.AllDigits(s)
    ensures n < 100 ==> |s| == 2
  {
    var digits := Utils.NatToString(n);
    if |digits| < 2 then "0" + digits else digits
  }

  /** parseInt reads a padded field back. */
  lemma PadTwoParses(n: nat)
    ensures Utils.ParseInt(PadTwo(n)) == Some(n)
  {
    var digits := Utils.NatToString(n);
    Utils.NatToStringValue(n);
    if |digits| < 2 {
      var padded := "0" + digits;
      assert padded[..1] == "0" && padded[1] == digits[0];
      assert "0"[..0] == [] && digits[..0] == [];
      assert Utils.DigitsValue("0") == 0;
      assert Utils.DigitsValue(padded) == Utils.DigitsValue(digits);
    }
    Utils.ParseIntOfDigits(PadTwo(n));
  }

  /** "hh:mm:ss", each field padded to at least two digits. */
  function CountdownText(c: Countdown): string {
    PadTwo(c.hours) + ":" + PadTwo(c.minutes) + ":" + PadTwo(c.seconds)
  }

  /** Below 100 hours the text is eight characters long with colons at positions 2 and 5. */
  lemma CountdownTextLayout(c: Countdown)
    requires c.hours < 100 && c.minutes < 60 && c.seconds < 60
    ensures var text := CountdownText(c);
            |text| == 8 && text[2] == ':' && text[5] == ':'
  {
    var h, m, s := PadTwo(c.hours), PadTwo(c.minutes), PadTwo(c.seconds);
    assert CountdownText(c) == h + [':'] + m + [':'] + s;
  }

  /** Splitting the text at the colons and parsing each field gives the countdown back. */
  lemma CountdownTextRoundTrip(c: Countdown)
    ensures var fields := Utils.Split(CountdownText(c), ':');
            && |fields| == 3
            && Utils.ParseInt(fields[0]) == Some(c.hours)
            && Utils.ParseInt(fields[1]) == Some(c.minutes)
            && Utils.ParseInt(fields[2]) == Some(c.seconds)
  {
    var h, m, s := PadTwo(c.hours), PadTwo(c.minutes), PadTwo(c.seconds);
    Utils.DigitsExclude(h, ':');
    Utils.DigitsExclude(m, ':');
    Utils.DigitsExclude(s, ':');
    Utils.SplitThree(h, m, s, ':');
    assert CountdownText(c) == h + [':'] + m + [':'] + s;
    PadTwoParses(c.hours);
    PadTwoParses(c.minutes);
    PadTwoParses(c.seconds);
  }

  /** From 100 s to 3800 s: one hour, one minute and forty seconds, shown "01:01:40". */
  lemma CountdownExample()
    ensures TimerCountdown(100000, 3800000) == Countdown(1, 1, 40)
    ensures CountdownText(Countdown(1, 1, 40)) == "01:01:40"
  {
    assert Utils.NatToString(1) == "1";
    assert Utils.NatToString(40) == "40" by {
      assert Utils.NatToString(4) == "4" && Utils.NatToString(0) == "0";
    }
  }

  /** The urgency class the countdown's digits take. */
  datatype Pulse = Indigo | IndigoSlow | Red | Orange

  function PulsateClass(c: Countdown): Pulse {
    if c.hours > 0 then IndigoSlow else if c.minutes <= 15 then Red else Orange
  }

  /**
   * In terms of the distance d in milliseconds: slow indigo from one hour on, red below
   * sixteen minutes, orange in between. The initial Indigo is never chosen.
   */
  lemma PulsateByDistance(currentMs: int, upcomingMs: int)
    ensures var d := Abs(currentMs - upcomingMs);
            var p := PulsateClass(TimerCountdown(currentMs, upcomingMs));
            && (p == IndigoSlow <==> d >= 3600000)
            && (p == Red <==> d < 960000)
            && (p == Orange <==> 960000 <= d < 3600000)
            && p != Indigo
  {
  }

  // ---------------------------------------------------------------------------------------
  // The panel's state
  // ---------------------------------------------------------------------------------------

  /**
   * The panel's React state: the viewed timetable index and the day shown with it, the
   * announced prayer, the countdown text, its class, and the page's `timer` badge that
   * `updateTimer` writes. The displayed day is a day number.
   */
  class Panel {
    var index: int
    var displayDay: int
    var nextPrayer: Option<Upcoming>
    var timerCountdown: string
    var pulsateClass: Pulse
    var timer: Option<Period>

    /**
     * The panel as first rendered on day `dayOfMonth` (1-based): the viewed index starts at
     * `dayOfMonth + 1`, two rows after the row `today = dayOfMonth - 1` that the period
     * lookups read, while the displayed day is the current one.
     */
    constructor (dayOfMonth: int)
      ensures index == dayOfMonth + 1 && displayDay == dayOfMonth
      ensures nextPrayer.None? && timerCountdown == "" && pulsateClass == Indigo && timer.None?
    {
      index, displayDay := dayOfMonth + 1, dayOfMonth;
      nextPrayer, timerCountdown, pulsateClass, timer := None, "", Indigo, None;
    }

    /**
     * handleIncrementIndex: move to the next day only while a later row exists. An index
     * in [0, length - 1] stays there; the displayed day moves exactly when the index does.
     */
    method IncrementIndex(length: int)
      modifies this`index, this`displayDay
      ensures old(index) < length - 1 ==> index == old(index) + 1 && displayDay == old(displayDay) + 1
      ensures old(index) >= length - 1 ==> index == old(index) && displayDay == old(displayDay)
      ensures 0 <= old(index) < length ==> 0 <= index < length
    {
      if index < length - 1 {
        displayDay := displayDay + 1;
        index := index + 1;
      }
    }

    /** handleDecrementIndex: move to the previous day only while the index is positive. */
    method DecrementIndex(length: int)
      modifies this`index, this`displayDay
      ensures old(index) > 0 ==> index == old(index) - 1 && displayDay == old(displayDay) - 1
      ensures old(index) <= 0 ==> index == old(index) && displayDay == old(displayDay)
      ensures 0 <= old(index) < length ==> 0 <= index < length
    {
      if index > 0 {
        displayDay := displayDay - 1;
        index := index - 1;
      }
    }

    /**
     * One tick of getNextPrayer at clock reading `now`: announce the next prayer, show the
     * countdown to it and its class, and pass the current period to the badge when there is
     * one. Without a clock reading or a row for today nothing changes. The lookups are the
     * guarded ones, so a missing neighbouring row does not stop the tick.
     */
    method Tick(now: Option<int>, schedule: seq<DayTimes>, today: int)
      modifies this`nextPrayer, this`timerCountdown, this`pulsateClass, this`timer
      ensures NextPrayer(now, schedule, today).None? ==>
                && nextPrayer == old(nextPrayer) && timerCountdown == old(timerCountdown)
                && pulsateClass == old(pulsateClass) && timer == old(timer)
      ensures NextPrayer(now, schedule, today).Some? ==>
                var c := TimerCountdown(now.value, 1000 * NextPrayer(now, schedule, today).value.time);
                && nextPrayer == NextPrayer(now, schedule, today)
                && timerCountdown == CountdownText(c)
                && pulsateClass == PulsateClass(c)
                && timer == (if CurrentPrayer(now, schedule, today).Some?
                             then CurrentPrayer(now, schedule, today) else old(timer))
    {
      var next := NextPrayer(now, schedule, today);
      if next.Some? {
        nextPrayer := next;
        var c := TimerCountdown(now.value, 1000 * next.value.time);
        timerCountdown := CountdownText(c);
        var current := CurrentPrayer(now, schedule, today);
        if current.Some? {
          timer := current;
        }
        pulsateClass := PulsateClass(c);
      }
    }
  }
}
