/** The day-range choice: the `days_choice` table, the filter that admits a choice, and
    the expansion of a choice into the days whose reports the location handler sends. */
module Days {
  import opened Wrappers
  import opened Text
  import opened Calendar
  import opened SolarReport

  /** days_choice: lower-cased label to number of days. */
  const DaysChoice: map<string, nat> := map["hoje" := 0, "amanhã" := 1, "semana" := 7]

  /** The keyboard labels, which are also the alternatives of the HOW_MANY regex. */
  const DayLabels: set<string> := {"Hoje", "Amanhã", "Semana"}

  /** The HOW_MANY filter `^(Hoje|Amanhã|Semana)$` as Python's re.search evaluates it:
      `$` also matches just before a final newline. */
  predicate RegexMatchesAsWritten(text: string) {
    text in DayLabels
    || (|text| > 0 && text[|text| - 1] == '\n' && text[..|text| - 1] in DayLabels)
  }

  /** The HOW_MANY filter as evidently intended: the whole text is one of the labels. */
  predicate IsDayLabel(text: string) {
    text in DayLabels
  }

  /** Which of the two HOW_MANY filters the handler table applies. */
  datatype LabelFilter = RegexAsWritten | ExactLabels

  predicate Admits(filter: LabelFilter, text: string) {
    match filter
    case RegexAsWritten => RegexMatchesAsWritten(text)
    case ExactLabels => IsDayLabel(text)
  }

  lemma LabelsLowered()
    ensures Lower("Hoje") == "hoje" && Lower("Amanhã") == "amanhã" && Lower("Semana") == "semana"
  {
    assert Lower("Hoje") == "hoje" by {
      assert forall i :: 0 <= i < 4 ==> Lower("Hoje")[i] == "hoje"[i];
    }
    assert Lower("Amanhã") == "amanhã" by {
      assert forall i :: 0 <= i < 6 ==> Lower("Amanhã")[i] == "amanhã"[i];
    }
    assert Lower("Semana") == "semana" by {
      assert forall i :: 0 <= i < 6 ==> Lower("Semana")[i] == "semana"[i];
    }
  }

  /** Lower-casing maps the three labels one to one onto the keys of days_choice, and
      a label the exact filter admits always has a day count. */
  lemma LabelsMatchDaysChoice()
    ensures DaysChoice.Keys == set t | t in DayLabels :: Lower(t)
    ensures forall t :: IsDayLabel(t) ==> Lower(t) in DaysChoice
    ensures DaysChoice[Lower("Hoje")] == 0
    ensures DaysChoice[Lower("Amanhã")] == 1
    ensures DaysChoice[Lower("Semana")] == 7
  {
    LabelsLowered();
    var lowered := set t | t in DayLabels :: Lower(t);
    assert "hoje" in lowered && "amanhã" in lowered && "semana" in lowered;
  }

  /** The regex as written admits a text whose lower case is not a key of days_choice:
      "Hoje" followed by a newline. */
  lemma TrailingNewlineAdmitted()
    ensures RegexMatchesAsWritten("Hoje\n")
    ensures !IsDayLabel("Hoje\n")
    ensures Lower("Hoje\n") !in DaysChoice
  {
    var t := "Hoje\n";
    assert t[..|t| - 1] == "Hoje";
    assert Lower(t)[4] == '\n';
  }

  /** The exact filter admits a subset of what the regex admits, and only texts with a
      day count. */
  lemma IsDayLabelSound(text: string)
    ensures IsDayLabel(text) ==> RegexMatchesAsWritten(text) && Lower(text) in DaysChoice
  {
    LabelsMatchDaysChoice();
  }

  /** The days of the reports for a count of days starting from `today` (main.py's
      `current_day + timedelta(days=days)` for 0 and 1, `current_day + timedelta(days=i+1)`
      for i in range(days) otherwise). Day numbers may leave the range of `date`. */
  function ReportDays(today: int, count: nat): seq<int> {
    if count == 0 || count == 1 then [today + count]
    else seq(count, i requires 0 <= i < count => today + i + 1)
  }

  /** For 0 or 1 there is one day, `count` days on; for any other count N the days are
      exactly those after today up to today + N, each once, in ascending order. */
  lemma ReportDaysSpan(today: int, count: nat)
    ensures count <= 1 ==> ReportDays(today, count) == [today + count]
    ensures count > 1 ==> |ReportDays(today, count)| == count
    ensures count > 1 ==> forall d :: d in ReportDays(today, count) <==> today < d <= today + count
    ensures forall i, j :: 0 <= i < j < |ReportDays(today, count)| ==> ReportDays(today, count)[i] < ReportDays(today, count)[j]
  {
    if count > 1 {
      var days := ReportDays(today, count);
      forall d | today < d <= today + count ensures d in days {
        assert days[d - today - 1] == d;
      }
    }
  }

  /** A week is the seven days after today. */
  lemma WeekIsNextSevenDays(today: int)
    ensures ReportDays(today, DaysChoice["semana"])
            == [today + 1, today + 2, today + 3, today + 4, today + 5, today + 6, today + 7]
  {
  }

  /** The day at index `i` of a multi-day choice and the one after it are consecutive
      calendar days. */
  lemma ReportDayThenNext(today: Ordinal, count: nat, i: nat)
    requires count > 1 && today + count <= MaxOrdinal && i < count - 1
    ensures 1 <= ReportDays(today, count)[i] < ReportDays(today, count)[i + 1] <= MaxOrdinal
    ensures FromOrdinal(ReportDays(today, count)[i + 1]) == NextDate(FromOrdinal(ReportDays(today, count)[i]))
  {
    var d: Ordinal := today + i + 1;
    assert ReportDays(today, count)[i] == d && ReportDays(today, count)[i + 1] == d + 1;
    NextOrdinalIsNextDate(d);
  }

  /** Within `date`'s range, the days of a multi-day choice are consecutive calendar days. */
  lemma ReportDaysConsecutive(today: Ordinal, count: nat)
    requires count > 1 && today + count <= MaxOrdinal
    ensures forall i {:trigger ReportDays(today, count)[i]} :: 0 <= i < count - 1 ==>
      1 <= ReportDays(today, count)[i] < ReportDays(today, count)[i + 1] <= MaxOrdinal
      && FromOrdinal(ReportDays(today, count)[i + 1]) == NextDate(FromOrdinal(ReportDays(today, count)[i]))
  {
    forall i: nat {:trigger ReportDays(today, count)[i]} | i < count - 1
      ensures 1 <= ReportDays(today, count)[i] < ReportDays(today, count)[i + 1] <= MaxOrdinal
      ensures FromOrdinal(ReportDays(today, count)[i + 1]) == NextDate(FromOrdinal(ReportDays(today, count)[i]))
    {
      ReportDayThenNext(today, count, i);
    }
  }

  /** calculate_solartimes at a fixed location, as a function of the day. */
  function SolarTables(eph: Ephemeris, lat: real, lon: real): Ordinal -> Result<Report, Error> {
    (day: Ordinal) => CalculateSolarTimes(eph, lat, lon, day)
  }

  /** The reports for a list of days, in order, or the first error: a day outside the range
      of `date` raises OverflowError when it is computed, and `table` may raise for a day. */
  function Reports(table: Ordinal -> Result<Report, Error>, days: seq<int>): Result<seq<Report>, Error>
    decreases |days|
  {
    if days == [] then Ok([])
    else
      match Reports(table, days[..|days| - 1])
      case Err(e) => Err(e)
      case Ok(rs) =>
        var d := days[|days| - 1];
        if !(1 <= d <= MaxOrdinal) then Err(DateOverflow)
        else
          match table(d)
          case Err(e) => Err(e)
          case Ok(rep) => Ok(rs + [rep])
  }

  /** The reports succeed exactly when every day is a `date` whose table succeeds; then
      there is one report per day, in the order of the days. */
  lemma {:induction false} ReportsOk(table: Ordinal -> Result<Report, Error>, days: seq<int>)
    ensures Reports(table, days).Ok?
            <==> forall i :: 0 <= i < |days| ==> 1 <= days[i] <= MaxOrdinal && table(days[i]).Ok?
    ensures Reports(table, days).Ok? ==>
            |Reports(table, days).value| == |days|
            && forall i :: 0 <= i < |days| ==> table(days[i]) == Ok(Reports(table, days).value[i])
    decreases |days|
  {
    if days != [] {
      var init := days[..|days| - 1];
      ReportsOk(table, init);
      assert forall i :: 0 <= i < |init| ==> init[i] == days[i];
    }
  }

  /** At a location, the reports succeed exactly when the location has a timezone and each
      day and the day before it are `date`s. */
  lemma ReportsAtLocationOk(eph: Ephemeris, lat: real, lon: real, days: seq<int>)
    ensures Reports(SolarTables(eph, lat, lon), days).Ok?
            <==> days == [] || (eph.timezoneAt(lat, lon).Some? && forall i :: 0 <= i < |days| ==> 1 < days[i] <= MaxOrdinal)
  {
    ReportsOk(SolarTables(eph, lat, lon), days);
    forall d: Ordinal {
      CalculateSolarTimesOutcome(eph, lat, lon, d);
    }
    if days != [] && !Reports(SolarTables(eph, lat, lon), days).Ok? {
      assert exists i :: 0 <= i < |days| && !(1 <= days[i] <= MaxOrdinal && CalculateSolarTimes(eph, lat, lon, days[i]).Ok?);
    }
  }

  /** At a location, the only errors are OverflowError and the unknown timezone. */
  lemma {:induction false} ReportsAtLocationErrors(eph: Ephemeris, lat: real, lon: real, days: seq<int>)
    ensures Reports(SolarTables(eph, lat, lon), days).Err? ==>
            Reports(SolarTables(eph, lat, lon), days).error in {DateOverflow, UnknownTimeZone}
    decreases |days|
  {
    if days != [] {
      ReportsAtLocationErrors(eph, lat, lon, days[..|days| - 1]);
      var d := days[|days| - 1];
      if 1 <= d <= MaxOrdinal {
        CalculateSolarTimesOutcome(eph, lat, lon, d);
      }
    }
  }

  /** Once an error is raised, later days are never computed. */
  lemma {:induction false} ReportsErrorSticks(table: Ordinal -> Result<Report, Error>, days: seq<int>, more: seq<int>)
    requires Reports(table, days).Err?
    ensures Reports(table, days + more) == Reports(table, days)
    decreases |more|
  {
    if more != [] {
      var init := more[..|more| - 1];
      ReportsErrorSticks(table, days, init);
      var all := days + more;
      assert all[..|all| - 1] == days + init;
      assert Reports(table, all[..|all| - 1]).Err?;
    } else {
      assert days + more == days;
    }
  }

  /** The output of the location handler (main.py's `if days == 1 or days == 0` and the
      `for i in range(days)` loop that concatenates one report per day), where `table`
      is calculate_solartimes at the shared location. */
  method CollectReports(table: Ordinal -> Result<Report, Error>, today: Ordinal, count: nat)
    returns (output: Result<seq<Report>, Error>)
    ensures output == Reports(table, ReportDays(today, count))
  {
    if count == 1 || count == 0 {
      ghost var single := ReportDays(today, count);
      assert single[..0] == [] && single[0] == today + count;
      var day := AddDays(today, count);
      if day.None? {
        return Err(DateOverflow);
      }
      var report := table(day.value);
      if report.Err? {
        return Err(report.error);
      }
      assert [] + [report.value] == [report.value];
      return Ok([report.value]);
    }
    ghost var days := ReportDays(today, count);
    var reports: seq<Report> := [];
    var i := 0;
    while i < count
      invariant 0 <= i <= count
      invariant Reports(table, days[..i]) == Ok(reports)
    {
      assert days[..i + 1][..i] == days[..i];
      assert days[..i + 1][i] == days[i] == today + i + 1;
      var day := AddDays(today, i + 1);
      if day.None? {
        assert Reports(table, days[..i + 1]) == Err(DateOverflow);
        ReportsErrorSticks(table, days[..i + 1], days[i + 1..]);
        assert days[..i + 1] + days[i + 1..] == days;
        return Err(DateOverflow);
      }
      var report := table(day.value);
      if report.Err? {
        assert Reports(table, days[..i + 1]) == Err(report.error);
        ReportsErrorSticks(table, days[..i + 1], days[i + 1..]);
        assert days[..i + 1] + days[i + 1..] == days;
        return Err(report.error);
      }
      reports := reports + [report.value];
      i := i + 1;
    }
    assert days[..count] == days;
    output := Ok(reports);
  }
}
