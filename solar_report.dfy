/** calculate_solartimes: one table of the four solar moments of a day at a location.
    The ephemeris, the timezone finder and the UTC-to-local conversion are foreign code,
    given here as function values; the table layout is reduced to its header and rows. */
module SolarReport {
  import opened Wrappers
  import opened Decimal
  import opened Calendar

  /** A UTC instant, in microseconds. */
  type Instant = int

  /** A local wall-clock reading, in microseconds since local midnight of 0001-01-01. */
  type WallTime = int

  datatype SunSchedule = SunSchedule(sunrise: Instant, noon: Instant, sunset: Instant)

  /** The foreign collaborators: SolarTime.sun_utc(day, latitude, longitude),
      SolarTime.solar_noon_utc(day, longitude), TimezoneFinder.timezone_at (None when no
      zone that pytz knows is found) and `astimezone` into a pytz zone. */
  datatype Ephemeris = Ephemeris(
    sunUtc: (Ordinal, real, real) -> SunSchedule,
    solarNoonUtc: (Ordinal, real) -> Instant,
    timezoneAt: (real, real) -> Option<string>,
    toLocal: (Instant, string) -> WallTime)

  const MicrosPerSecond := 1000000
  const SecondsPerDay := 86400
  const TwelveHours := 12 * 3600 * MicrosPerSecond

  /** The row labels of the table, in order. */
  const Moments: seq<string> := ["Meia noite", "Nascer do sol", "Meio dia", "Pôr do sol"]

  datatype Row = Row(moment: string, time: string)

  datatype Report = Report(header: string, rows: seq<Row>)

  /** The second of the local day a wall-clock reading falls in (what %H:%M:%S shows). */
  function SecondOfDay(t: WallTime): (s: nat)
    ensures s < SecondsPerDay
  {
    (t / MicrosPerSecond) % SecondsPerDay
  }

  /** The second of the day at `h:m:x`. */
  function Seconds(h: nat, m: nat, x: nat): nat {
    h * 3600 + m * 60 + x
  }

  /** Reads back an `HH:MM:SS` text as seconds since midnight. */
  function ParseClock(s: string): Option<nat> {
    if |s| == 8 && s[2] == ':' && s[5] == ':' && AllDigits(s[..2]) && AllDigits(s[3..5]) && AllDigits(s[6..])
    then Some(Seconds(ValueOf(s[..2]), ValueOf(s[3..5]), ValueOf(s[6..])))
    else None
  }

  /** Where the three fields and the two separators of `a:b:c` sit. */
  lemma ClockLayout(a: string, b: string, c: string)
    requires |a| == |b| == |c| == 2
    ensures var s := a + ":" + b + ":" + c;
      |s| == 8 && s[2] == ':' && s[5] == ':' && s[..2] == a && s[3..5] == b && s[6..] == c
  {
    var s := a + ":" + b + ":" + c;
    assert s[..2] == a by { assert forall i :: 0 <= i < 2 ==> s[i] == a[i]; }
    assert s[3..5] == b by { assert forall i :: 0 <= i < 2 ==> s[3 + i] == b[i]; }
    assert s[6..] == c by { assert forall i :: 0 <= i < 2 ==> s[6 + i] == c[i]; }
  }

  lemma ParseClockOf(a: string, b: string, c: string)
    requires |a| == |b| == |c| == 2 && AllDigits(a) && AllDigits(b) && AllDigits(c)
    ensures ParseClock(a + ":" + b + ":" + c) == Some(Seconds(ValueOf(a), ValueOf(b), ValueOf(c)))
  {
    ClockLayout(a, b, c);
  }

  /** A second of the day as `HH:MM:SS`. */
  function ClockOfSecond(sec: nat): string
    requires sec < SecondsPerDay
  {
    assert Pow10(2) == 100;
    Fixed(sec / 3600, 2) + ":" + Fixed(sec % 3600 / 60, 2) + ":" + Fixed(sec % 60, 2)
  }

  /** strftime('%H:%M:%S'). */
  function ClockText(t: WallTime): string {
    ClockOfSecond(SecondOfDay(t))
  }

  /** Hours, minutes and seconds put back together give the second of the day. */
  lemma ClockSplit(sec: nat)
    requires sec < SecondsPerDay
    ensures sec / 3600 < 24 && sec % 3600 / 60 < 60 && sec % 60 < 60
    ensures Seconds(sec / 3600, sec % 3600 / 60, sec % 60) == sec
  {
  }

  /** `HH:MM:SS` reads back as the second of the day it was written from. */
  lemma ClockOfSecondRoundTrip(sec: nat)
    requires sec < SecondsPerDay
    ensures |ClockOfSecond(sec)| == 8
    ensures ParseClock(ClockOfSecond(sec)) == Some(sec)
  {
    var h, m, x := sec / 3600, sec % 3600 / 60, sec % 60;
    ClockSplit(sec);
    assert Pow10(2) == 100;
    FixedRoundTrip(h, 2);
    FixedRoundTrip(m, 2);
    FixedRoundTrip(x, 2);
    ParseClockOf(Fixed(h, 2), Fixed(m, 2), Fixed(x, 2));
  }

  /** The clock text reads back as the second of the day of the wall-clock reading. */
  lemma ClockTextRoundTrip(t: WallTime)
    ensures |ClockText(t)| == 8
    ensures ParseClock(ClockText(t)) == Some(SecondOfDay(t))
  {
    ClockOfSecondRoundTrip(SecondOfDay(t));
  }

  /** Reads back a `DD/MM/YYYY e.v.` header as a date. */
  function ParseHeader(h: string): Option<Date> {
    if |h| == 15 && h[2] == '/' && h[5] == '/' && h[10..] == " e.v."
       && AllDigits(h[..2]) && AllDigits(h[3..5]) && AllDigits(h[6..10])
    then Some(Date(ValueOf(h[6..10]), ValueOf(h[3..5]), ValueOf(h[..2])))
    else None
  }

  /** Where the three fields, the separators and the era suffix of `d/m/y e.v.` sit. */
  lemma HeaderLayout(d: string, m: string, y: string)
    requires |d| == |m| == 2 && |y| == 4
    ensures var h := d + "/" + m + "/" + y + " e.v.";
      && |h| == 15 && h[2] == '/' && h[5] == '/' && h[10..] == " e.v."
      && h[..2] == d && h[3..5] == m && h[6..10] == y
  {
    var h := d + "/" + m + "/" + y + " e.v.";
    assert h[..2] == d by { assert forall i :: 0 <= i < 2 ==> h[i] == d[i]; }
    assert h[3..5] == m by { assert forall i :: 0 <= i < 2 ==> h[3 + i] == m[i]; }
    assert h[6..10] == y by { assert forall i :: 0 <= i < 4 ==> h[6 + i] == y[i]; }
    assert h[10..] == " e.v." by { assert forall i :: 0 <= i < 5 ==> h[10 + i] == " e.v."[i]; }
  }

  lemma ParseHeaderOf(d: string, m: string, y: string)
    requires |d| == |m| == 2 && |y| == 4 && AllDigits(d) && AllDigits(m) && AllDigits(y)
    ensures ParseHeader(d + "/" + m + "/" + y + " e.v.") == Some(Date(ValueOf(y), ValueOf(m), ValueOf(d)))
  {
    HeaderLayout(d, m, y);
  }

  /** '{} e.v.'.format(day.strftime('%d/%m/%Y')). */
  function Header(day: Ordinal): string {
    var dt := FromOrdinal(day);
    assert Pow10(2) == 100 && Pow10(4) == 10000;
    Fixed(dt.day, 2) + "/" + Fixed(dt.month, 2) + "/" + Fixed(dt.year, 4) + " e.v."
  }

  /** The header reads back as the calendar date of the day. */
  lemma HeaderRoundTrip(day: Ordinal)
    ensures |Header(day)| == 15
    ensures ParseHeader(Header(day)) == Some(FromOrdinal(day))
  {
    var dt := FromOrdinal(day);
    assert Pow10(2) == 100 && Pow10(4) == 10000;
    FixedRoundTrip(dt.day, 2);
    FixedRoundTrip(dt.month, 2);
    FixedRoundTrip(dt.year, 4);
    ParseHeaderOf(Fixed(dt.day, 2), Fixed(dt.month, 2), Fixed(dt.year, 4));
  }

  /** The second of the day half a day after `sec`, on a 24-hour clock. */
  function HalfADayOn(sec: nat): (r: nat)
    requires sec < SecondsPerDay
    ensures r < SecondsPerDay
  {
    if sec < 43200 then sec + 43200 else sec - 43200
  }

  /** Adding twelve hours to a wall-clock reading moves its clock half a day on: the
      solar midnight row reads twelve hours after the previous day's solar noon. */
  lemma TwelveHoursLater(t: WallTime)
    ensures SecondOfDay(t + TwelveHours) == (SecondOfDay(t) + 43200) % SecondsPerDay
    ensures SecondOfDay(t + TwelveHours) == HalfADayOn(SecondOfDay(t))
  {
    assert (t + TwelveHours) / MicrosPerSecond == t / MicrosPerSecond + 43200;
  }

  /** The table of one day: the header, then one row per moment, in the fixed order, with
      the clock text of its wall-clock reading. */
  function DayTable(day: Ordinal, times: seq<WallTime>): Report
    requires |times| == |Moments|
  {
    Report(Header(day), seq(|Moments|, i requires 0 <= i < |Moments| => Row(Moments[i], ClockText(times[i]))))
  }

  /** The four local wall-clock readings calculate_solartimes formats, in row order: solar
      midnight, sunrise, solar noon and sunset; or the error raised on the way. */
  function SolarMoments(eph: Ephemeris, lat: real, lon: real, day: Ordinal): (r: Result<seq<WallTime>, Error>)
    ensures r.Ok? ==> |r.value| == |Moments|
  {
    var schedule := eph.sunUtc(day, lat, lon);
    match eph.timezoneAt(lat, lon)
    case None => Err(UnknownTimeZone)
    case Some(zone) =>
      var sunrise := eph.toLocal(schedule.sunrise, zone);
      var solarNoon := eph.toLocal(schedule.noon, zone);
      var sunset := eph.toLocal(schedule.sunset, zone);
      match AddDays(day, -1)
      case None => Err(DateOverflow)
      case Some(previous) =>
        var solarMidnight := eph.toLocal(eph.solarNoonUtc(previous, lon), zone) + TwelveHours;
        Ok([solarMidnight, sunrise, solarNoon, sunset])
  }

  /** calculate_solartimes(latitude, longitude, day). */
  function CalculateSolarTimes(eph: Ephemeris, lat: real, lon: real, day: Ordinal): Result<Report, Error> {
    match SolarMoments(eph, lat, lon, day)
    case Err(e) => Err(e)
    case Ok(times) => Ok(DayTable(day, times))
  }

  /** The moments are found exactly when the location has a timezone and the day before
      `day` is a `date`; solar midnight is then the previous day's local solar noon plus
      twelve hours, followed by the day's local sunrise, solar noon and sunset. The
      timezone lookup raises first, then the date arithmetic. */
  lemma SolarMomentsOf(eph: Ephemeris, lat: real, lon: real, day: Ordinal)
    ensures SolarMoments(eph, lat, lon, day).Ok? <==> eph.timezoneAt(lat, lon).Some? && day > 1
    ensures eph.timezoneAt(lat, lon).None? ==> SolarMoments(eph, lat, lon, day) == Err(UnknownTimeZone)
    ensures eph.timezoneAt(lat, lon).Some? && day == 1 ==> SolarMoments(eph, lat, lon, day) == Err(DateOverflow)
    ensures eph.timezoneAt(lat, lon).Some? && day > 1 ==>
      var zone := eph.timezoneAt(lat, lon).value;
      var sun := eph.sunUtc(day, lat, lon);
      SolarMoments(eph, lat, lon, day) == Ok([
        eph.toLocal(eph.solarNoonUtc(day - 1, lon), zone) + TwelveHours,
        eph.toLocal(sun.sunrise, zone), eph.toLocal(sun.noon, zone), eph.toLocal(sun.sunset, zone)])
  {
    if eph.timezoneAt(lat, lon).Some? && day > 1 {
      assert AddDays(day, -1) == Some(day - 1);
    }
  }

  /** A report is produced exactly when the location has a timezone and the day before
      `day` is a `date`; otherwise the timezone lookup raises first, then the date
      arithmetic. */
  lemma CalculateSolarTimesOutcome(eph: Ephemeris, lat: real, lon: real, day: Ordinal)
    ensures CalculateSolarTimes(eph, lat, lon, day).Ok? <==> eph.timezoneAt(lat, lon).Some? && day > 1
    ensures eph.timezoneAt(lat, lon).None? ==> CalculateSolarTimes(eph, lat, lon, day) == Err(UnknownTimeZone)
    ensures eph.timezoneAt(lat, lon).Some? && day == 1 ==> CalculateSolarTimes(eph, lat, lon, day) == Err(DateOverflow)
  {
    SolarMomentsOf(eph, lat, lon, day);
  }

  /** The table of a day reads back as that day's date and, row by row, the moments in
      order with the second of the day of each wall-clock reading. */
  lemma DayTableReadsBack(day: Ordinal, times: seq<WallTime>)
    requires |times| == |Moments|
    ensures
      var r := DayTable(day, times);
      && ParseHeader(r.header) == Some(FromOrdinal(day))
      && |r.rows| == |Moments|
      && forall i :: 0 <= i < |Moments| ==>
           r.rows[i].moment == Moments[i] && ParseClock(r.rows[i].time) == Some(SecondOfDay(times[i]))
  {
    HeaderRoundTrip(day);
    var r := DayTable(day, times);
    forall i | 0 <= i < |Moments|
      ensures r.rows[i].moment == Moments[i] && ParseClock(r.rows[i].time) == Some(SecondOfDay(times[i]))
    {
      ClockTextRoundTrip(times[i]);
    }
  }

  /** A report has the day's date as its header and four rows in the fixed order: solar
      midnight at the previous day's local solar noon plus twelve hours, then the local
      sunrise, solar noon and sunset of the day. */
  lemma CalculateSolarTimesReport(eph: Ephemeris, lat: real, lon: real, day: Ordinal)
    requires eph.timezoneAt(lat, lon).Some? && day > 1
    ensures CalculateSolarTimes(eph, lat, lon, day).Ok?
    ensures
      var r := CalculateSolarTimes(eph, lat, lon, day).value;
      var zone := eph.timezoneAt(lat, lon).value;
      var sun := eph.sunUtc(day, lat, lon);
      && ParseHeader(r.header) == Some(FromOrdinal(day))
      && |r.rows| == 4 && (forall i :: 0 <= i < 4 ==> r.rows[i].moment == Moments[i])
      && ParseClock(r.rows[0].time) == Some(SecondOfDay(eph.toLocal(eph.solarNoonUtc(day - 1, lon), zone) + TwelveHours))
      && ParseClock(r.rows[1].time) == Some(SecondOfDay(eph.toLocal(sun.sunrise, zone)))
      && ParseClock(r.rows[2].time) == Some(SecondOfDay(eph.toLocal(sun.noon, zone)))
      && ParseClock(r.rows[3].time) == Some(SecondOfDay(eph.toLocal(sun.sunset, zone)))
  {
    SolarMomentsOf(eph, lat, lon, day);
    DayTableReadsBack(day, SolarMoments(eph, lat, lon, day).value);
  }

  /** The midnight row of a day's table, whose first time is twelve hours after `noon`,
      shows the clock of `noon` moved on by half a day. */
  lemma MidnightRowReadsHalfADayOn(day: Ordinal, times: seq<WallTime>, noon: WallTime)
    requires |times| == |Moments| && times[0] == noon + TwelveHours
    ensures ParseClock(DayTable(day, times).rows[0].time) == Some(HalfADayOn(SecondOfDay(noon)))
  {
    DayTableReadsBack(day, times);
    TwelveHoursLater(noon);
  }

  /** The solar midnight row shows the clock of the previous day's local solar noon moved
      on by half a day. */
  lemma SolarMidnightReadsHalfADayOn(eph: Ephemeris, lat: real, lon: real, day: Ordinal)
    requires eph.timezoneAt(lat, lon).Some? && day > 1
    ensures
      var r := CalculateSolarTimes(eph, lat, lon, day);
      var noon := eph.toLocal(eph.solarNoonUtc(day - 1, lon), eph.timezoneAt(lat, lon).value);
      r.Ok? && |r.value.rows| == 4 && ParseClock(r.value.rows[0].time) == Some(HalfADayOn(SecondOfDay(noon)))
  {
    SolarMomentsOf(eph, lat, lon, day);
    var noon := eph.toLocal(eph.solarNoonUtc(day - 1, lon), eph.timezoneAt(lat, lon).value);
    MidnightRowReadsHalfADayOn(day, SolarMoments(eph, lat, lon, day).value, noon);
  }
}
