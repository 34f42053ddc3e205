/** The conversation: the handler table of main() (which handler accepts which event in
    which state, state handlers before fallbacks), the handlers start, regular_choice,
    how_many, location, skip_location and cancel, and the per-user `user_data` dictionary
    they share. One user in one chat is modelled. */
module Bot {
  import opened Wrappers
  import opened Text
  import opened Calendar
  import opened SolarReport
  import opened Days

  /** REGULAR_CHOICE, HOW_MANY and LOCATION (0, 1 and 2 in main.py), and Idle: no
      conversation in progress, where ConversationHandler.END also leads. */
  datatype State = Idle | RegularChoice | HowMany | Location

  /** A message: plain text, a command (`/name`), or a shared location. */
  datatype Event = TextMessage(text: string) | Command(name: string) | SharedLocation(latitude: real, longitude: real)

  /** What handling an event led to. A raised error is an exception out of the handler:
      the framework keeps the conversation in its state and sends no reply. */
  datatype Outcome = Unhandled | Handled | Reported(reports: seq<Report>) | Raised(error: Error)

  datatype Session = Session(state: State, userData: map<string, string>)

  const ChoiceKey := "choice"

  const Initial := Session(Idle, map[])

  /** The text of a message, which filters.TEXT and filters.Regex look at; a command is a
      text message too. */
  function MessageText(ev: Event): Option<string> {
    match ev
    case TextMessage(t) => Some(t)
    case Command(name) => Some("/" + name)
    case SharedLocation(_, _) => None
  }

  /** The location handler on a session: the KeyError of `user_data["choice"]`, the
      KeyError of `days_choice[choice.lower()]`, or the choice deleted and the reports
      computed; a failure there is raised after the deletion. */
  function LocationStep(s: Session, table: Ordinal -> Result<Report, Error>, today: Ordinal): (Session, Outcome) {
    if ChoiceKey !in s.userData then (s, Raised(KeyMissing(ChoiceKey)))
    else
      var key := Lower(s.userData[ChoiceKey]);
      if key !in DaysChoice then (s, Raised(KeyMissing(key)))
      else
        var rest := s.userData - {ChoiceKey};
        match Reports(table, ReportDays(today, DaysChoice[key]))
        case Ok(reports) => (Session(HowMany, rest), Reported(reports))
        case Err(e) => (Session(s.state, rest), Raised(e))
  }

  /** The cancel handler's dictionary: `choice` is deleted when it is present and truthy. */
  function WithoutChoice(userData: map<string, string>): map<string, string> {
    if ChoiceKey in userData && userData[ChoiceKey] != "" then userData - {ChoiceKey} else userData
  }

  /** The fallbacks, tried in any state after that state's own handlers. */
  function Fallbacks(s: Session, ev: Event): (Session, Outcome) {
    if ev == Command("cancel") then (Session(Idle, WithoutChoice(s.userData)), Handled)
    else if ev == Command("retry") then (Session(HowMany, s.userData), Handled)
    else (s, Unhandled)
  }

  /** One event through the conversation handler of main(), with `filter` as the HOW_MANY
      filter: RegexAsWritten is main.py as written, ExactLabels the evident intent. */
  function Step(s: Session, ev: Event, filter: LabelFilter, eph: Ephemeris, today: Ordinal): (Session, Outcome) {
    match s.state
    case Idle =>
      if ev == Command("start") then (Session(HowMany, s.userData), Handled) else (s, Unhandled)
    case RegularChoice =>
      if MessageText(ev).Some? then (Session(Location, s.userData[ChoiceKey := MessageText(ev).value]), Handled)
      else Fallbacks(s, ev)
    case HowMany =>
      if MessageText(ev).Some? && Admits(filter, MessageText(ev).value)
      then (Session(Location, s.userData[ChoiceKey := MessageText(ev).value]), Handled)
      else Fallbacks(s, ev)
    case Location =>
      if ev.SharedLocation? then LocationStep(s, SolarTables(eph, ev.latitude, ev.longitude), today)
      else if ev == Command("skip") then (s, Handled)
      else Fallbacks(s, ev)
  }

  /** One user's conversation with the bot: the state the conversation handler keeps for
      it and the user's `context.user_data`. Each handler method returns the state the
      Python handler returns; Dispatch plays the handler table and stores that state. */
  class Conversation {
    var state: State
    var userData: map<string, string>

    constructor ()
      ensures state == Idle && userData == map[]
    {
      state := Idle;
      userData := map[];
    }

    function Snapshot(): Session
      reads this
    {
      Session(state, userData)
    }

    /** start: greets and asks for the days, through regular_choice. */
    method HandleStart() returns (next: State)
      ensures next == HowMany
    {
      next := HandleRegularChoice();
    }

    /** regular_choice (also /retry): asks for the days, keeping the session. */
    method HandleRegularChoice() returns (next: State)
      ensures next == HowMany
    {
      next := HowMany;
    }

    /** how_many: stores the message text as the choice. */
    method HandleHowMany(text: string) returns (next: State)
      modifies this
      ensures next == Location && state == old(state)
      ensures userData == old(userData)[ChoiceKey := text]
    {
      userData := userData[ChoiceKey := text];
      next := Location;
    }

    /** location: looks the choice up, deletes it and computes the reports; `table` is
        calculate_solartimes at the shared location and `today` is date.today(). */
    method HandleLocation(table: Ordinal -> Result<Report, Error>, today: Ordinal)
      returns (next: State, result: Result<seq<Report>, Error>)
      modifies this
      ensures next == HowMany && state == old(state)
      ensures ChoiceKey !in old(userData) ==> result == Err(KeyMissing(ChoiceKey)) && userData == old(userData)
      ensures ChoiceKey in old(userData) && Lower(old(userData)[ChoiceKey]) !in DaysChoice ==>
              result == Err(KeyMissing(Lower(old(userData)[ChoiceKey]))) && userData == old(userData)
      ensures ChoiceKey in old(userData) && Lower(old(userData)[ChoiceKey]) in DaysChoice ==>
              && userData == old(userData) - {ChoiceKey}
              && result == Reports(table, ReportDays(today, DaysChoice[Lower(old(userData)[ChoiceKey])]))
    {
      next := HowMany;
      if ChoiceKey !in userData {
        return next, Err(KeyMissing(ChoiceKey));
      }
      var choice := userData[ChoiceKey];
      var key := Lower(choice);
      if key !in DaysChoice {
        return next, Err(KeyMissing(key));
      }
      var days := DaysChoice[key];
      userData := userData - {ChoiceKey};
      result := CollectReports(table, today, days);
    }

    /** skip_location: asks again for the location. */
    method HandleSkipLocation() returns (next: State)
      ensures next == Location
    {
      next := Location;
    }

    /** cancel: deletes a truthy choice and ends the conversation. */
    method HandleCancel() returns (next: State)
      modifies this
      ensures next == Idle && state == old(state)
      ensures ChoiceKey in old(userData) && old(userData)[ChoiceKey] != "" ==> userData == old(userData) - {ChoiceKey}
      ensures !(ChoiceKey in old(userData) && old(userData)[ChoiceKey] != "") ==> userData == old(userData)
    {
      if ChoiceKey in userData && userData[ChoiceKey] != "" {
        userData := userData - {ChoiceKey};
      }
      next := Idle;
    }

    /** The fallbacks /cancel and /retry. */
    method TryFallbacks(ev: Event) returns (outcome: Outcome)
      modifies this
      ensures (Snapshot(), outcome) == Fallbacks(old(Snapshot()), ev)
    {
      if ev == Command("cancel") {
        state := HandleCancel();
        outcome := Handled;
      } else if ev == Command("retry") {
        state := HandleRegularChoice();
        outcome := Handled;
      } else {
        outcome := Unhandled;
      }
    }

    /** The conversation handler of main(): in no conversation only the entry point
        /start; in a state, that state's handlers first, then the fallbacks. A handler's
        return value becomes the state, unless the handler raised. */
    method Dispatch(ev: Event, filter: LabelFilter, eph: Ephemeris, today: Ordinal) returns (outcome: Outcome)
      modifies this
      ensures (Snapshot(), outcome) == Step(old(Snapshot()), ev, filter, eph, today)
    {
      var text := MessageText(ev);
      match state
      case Idle =>
        if ev == Command("start") {
          state := HandleStart();
          outcome := Handled;
        } else {
          outcome := Unhandled;
        }
      case RegularChoice =>
        if text.Some? {
          state := HandleHowMany(text.value);
          outcome := Handled;
        } else {
          outcome := TryFallbacks(ev);
        }
      case HowMany =>
        if text.Some? && Admits(filter, text.value) {
          state := HandleHowMany(text.value);
          outcome := Handled;
        } else {
          outcome := TryFallbacks(ev);
        }
      case Location =>
        if ev.SharedLocation? {
          var next, result := HandleLocation(SolarTables(eph, ev.latitude, ev.longitude), today);
          match result
          case Ok(reports) =>
            state := next;
            outcome := Reported(reports);
          case Err(e) =>
            outcome := Raised(e);
        } else if ev == Command("skip") {
          state := HandleSkipLocation();
          outcome := Handled;
        } else {
          outcome := TryFallbacks(ev);
        }
    }
  }

  /** An event together with the day `date.today()` gives when it is handled. */
  datatype Input = Input(event: Event, today: Ordinal)

  function Run(s: Session, inputs: seq<Input>, filter: LabelFilter, eph: Ephemeris): Session
    decreases |inputs|
  {
    if inputs == [] then s
    else Run(Step(s, inputs[0].event, filter, eph, inputs[0].today).0, inputs[1..], filter, eph)
  }

  /** The outcomes of a run, one per input. */
  function RunOutcomes(s: Session, inputs: seq<Input>, filter: LabelFilter, eph: Ephemeris): seq<Outcome>
    decreases |inputs|
  {
    if inputs == [] then []
    else
      var (next, out) := Step(s, inputs[0].event, filter, eph, inputs[0].today);
      [out] + RunOutcomes(next, inputs[1..], filter, eph)
  }

  /** The invariant the handlers are meant to keep: REGULAR_CHOICE is never entered, and
      while a location is awaited a choice with a day count is stored. */
  predicate Safe(s: Session) {
    s.state != RegularChoice
    && (s.state == Location ==> ChoiceKey in s.userData && Lower(s.userData[ChoiceKey]) in DaysChoice)
  }

  /** Every handler keeps Safe unless it raised, and from a Safe session the location
      handler never raises a KeyError. */
  lemma StepKeepsSafe(s: Session, ev: Event, eph: Ephemeris, today: Ordinal)
    requires Safe(s)
    ensures !Step(s, ev, ExactLabels, eph, today).1.Raised? ==> Safe(Step(s, ev, ExactLabels, eph, today).0)
    ensures Step(s, ev, ExactLabels, eph, today).1.Raised? ==> !Step(s, ev, ExactLabels, eph, today).1.error.KeyMissing?
  {
    LabelsMatchDaysChoice();
    if s.state == Location && ev.SharedLocation? {
      var key := Lower(s.userData[ChoiceKey]);
      ReportsAtLocationErrors(eph, ev.latitude, ev.longitude, ReportDays(today, DaysChoice[key]));
    }
  }

  /** No handler returns REGULAR_CHOICE, and a raised error keeps the state, so a
      conversation that did not start there never reaches it, whichever filter HOW_MANY
      applies. */
  lemma {:induction false} RegularChoiceUnreachable(s: Session, inputs: seq<Input>, filter: LabelFilter, eph: Ephemeris)
    requires s.state != RegularChoice
    ensures Run(s, inputs, filter, eph).state != RegularChoice
    decreases |inputs|
  {
    if inputs != [] {
      var next := Step(s, inputs[0].event, filter, eph, inputs[0].today).0;
      assert next.state != RegularChoice;
      RegularChoiceUnreachable(next, inputs[1..], filter, eph);
    }
  }

  /** Along a run in which no handler raised, Safe holds at the end. */
  lemma {:induction false} RunKeepsSafe(s: Session, inputs: seq<Input>, eph: Ephemeris)
    requires Safe(s)
    requires forall i :: 0 <= i < |RunOutcomes(s, inputs, ExactLabels, eph)| ==> !RunOutcomes(s, inputs, ExactLabels, eph)[i].Raised?
    ensures Safe(Run(s, inputs, ExactLabels, eph))
    decreases |inputs|
  {
    if inputs != [] {
      var (next, out) := Step(s, inputs[0].event, ExactLabels, eph, inputs[0].today);
      assert RunOutcomes(s, inputs, ExactLabels, eph) == [out] + RunOutcomes(next, inputs[1..], ExactLabels, eph);
      assert RunOutcomes(s, inputs, ExactLabels, eph)[0] == out;
      StepKeepsSafe(s, inputs[0].event, eph, inputs[0].today);
      forall i | 0 <= i < |RunOutcomes(next, inputs[1..], ExactLabels, eph)|
        ensures !RunOutcomes(next, inputs[1..], ExactLabels, eph)[i].Raised?
      {
        assert RunOutcomes(s, inputs, ExactLabels, eph)[i + 1] == RunOutcomes(next, inputs[1..], ExactLabels, eph)[i];
      }
      RunKeepsSafe(next, inputs[1..], eph);
    }
  }

  /** What holds of every session reachable from the start, raised errors included:
      REGULAR_CHOICE is not entered, and a stored choice is one of the keyboard labels. */
  predicate Reachable(s: Session) {
    s.state != RegularChoice
    && (ChoiceKey in s.userData ==> s.userData[ChoiceKey] in DayLabels)
  }

  /** Every event keeps Reachable, whatever its outcome; the only KeyError ever raised is
      the one of `user_data["choice"]`, never the `days_choice` lookup. */
  lemma StepKeepsReachable(s: Session, ev: Event, eph: Ephemeris, today: Ordinal)
    requires Reachable(s)
    ensures Reachable(Step(s, ev, ExactLabels, eph, today).0)
    ensures var out := Step(s, ev, ExactLabels, eph, today).1;
      out.Raised? && out.error.KeyMissing? ==> out.error == KeyMissing(ChoiceKey)
  {
    LabelsMatchDaysChoice();
    if s.state == Location && ev.SharedLocation? && ChoiceKey in s.userData {
      var key := Lower(s.userData[ChoiceKey]);
      ReportsAtLocationErrors(eph, ev.latitude, ev.longitude, ReportDays(today, DaysChoice[key]));
    }
  }

  /** Every run keeps Reachable, and no outcome along it is a KeyError other than
      KeyError('choice'). */
  lemma {:induction false} RunKeepsReachable(s: Session, inputs: seq<Input>, eph: Ephemeris)
    requires Reachable(s)
    ensures Reachable(Run(s, inputs, ExactLabels, eph))
    ensures forall i :: 0 <= i < |RunOutcomes(s, inputs, ExactLabels, eph)| ==>
      var out := RunOutcomes(s, inputs, ExactLabels, eph)[i];
      out.Raised? && out.error.KeyMissing? ==> out.error == KeyMissing(ChoiceKey)
    decreases |inputs|
  {
    if inputs != [] {
      var (next, out) := Step(s, inputs[0].event, ExactLabels, eph, inputs[0].today);
      StepKeepsReachable(s, inputs[0].event, eph, inputs[0].today);
      RunKeepsReachable(next, inputs[1..], eph);
      assert RunOutcomes(s, inputs, ExactLabels, eph) == [out] + RunOutcomes(next, inputs[1..], ExactLabels, eph);
    }
  }

  /** A conversation starts with no choice stored, so every session reached from it is
      Reachable. */
  lemma FromInitialReachable(inputs: seq<Input>, eph: Ephemeris)
    ensures Reachable(Run(Initial, inputs, ExactLabels, eph))
    ensures Run(Initial, inputs, ExactLabels, eph).state != RegularChoice
  {
    RunKeepsReachable(Initial, inputs, eph);
  }

  /** In HOW_MANY, how_many runs exactly on the texts Hoje, Amanhã and Semana: it stores
      the text as the choice and moves to LOCATION. A shared location is not accepted there. */
  lemma HowManyAcceptsOnlyLabels(s: Session, ev: Event, eph: Ephemeris, today: Ordinal)
    requires s.state == HowMany
    ensures Step(s, ev, ExactLabels, eph, today).0.state == Location <==> ev.TextMessage? && ev.text in DayLabels
    ensures ev.TextMessage? && ev.text in DayLabels ==>
            Step(s, ev, ExactLabels, eph, today) == (Session(Location, s.userData[ChoiceKey := ev.text]), Handled)
    ensures ev.SharedLocation? ==> Step(s, ev, ExactLabels, eph, today) == (s, Unhandled)
  {
    if ev.Command? {
      assert ("/" + ev.name)[0] == '/';
      assert "/" + ev.name !in DayLabels;
    }
  }

  /** In LOCATION, a shared location consumes the stored choice: the reports for its day
      count are sent and the state returns to HOW_MANY, or an error is raised after the
      choice was deleted and the state stays LOCATION. */
  lemma LocationConsumesChoice(s: Session, lat: real, lon: real, filter: LabelFilter, eph: Ephemeris, today: Ordinal)
    requires Safe(s) && s.state == Location
    ensures
      var (next, out) := Step(s, SharedLocation(lat, lon), filter, eph, today);
      var days := ReportDays(today, DaysChoice[Lower(s.userData[ChoiceKey])]);
      && next.userData == s.userData - {ChoiceKey}
      && (out.Reported? || out.Raised?)
      && (out.Reported? <==> next.state == HowMany)
      && (out.Raised? <==> next.state == Location)
      && (out.Reported? <==> eph.timezoneAt(lat, lon).Some? && forall i :: 0 <= i < |days| ==> 1 < days[i] <= MaxOrdinal)
      && (out.Reported? ==>
            (|out.reports| == |days|
             && forall i :: 0 <= i < |days| ==> ParseHeader(out.reports[i].header) == Some(FromOrdinal(days[i]))))
  {
    var key := Lower(s.userData[ChoiceKey]);
    var days := ReportDays(today, DaysChoice[key]);
    var table := SolarTables(eph, lat, lon);
    ReportsAtLocationOk(eph, lat, lon, days);
    ReportsOk(table, days);
    ReportsAtLocationErrors(eph, lat, lon, days);
    if Reports(table, days).Ok? {
      var rs := Reports(table, days).value;
      forall i | 0 <= i < |days| ensures ParseHeader(rs[i].header) == Some(FromOrdinal(days[i])) {
        CalculateSolarTimesReport(eph, lat, lon, days[i]);
      }
    }
  }

  /** /cancel ends the conversation from HOW_MANY and LOCATION and deletes a stored
      (non-empty) choice; every other key of the session is left as it was. */
  lemma CancelEnds(s: Session, filter: LabelFilter, eph: Ephemeris, today: Ordinal)
    requires s.state == HowMany || s.state == Location
    ensures
      var (next, out) := Step(s, Command("cancel"), filter, eph, today);
      && out == Handled && next.state == Idle
      && (ChoiceKey in next.userData <==> ChoiceKey in s.userData && s.userData[ChoiceKey] == "")
      && (forall k :: k != ChoiceKey ==> (k in next.userData <==> k in s.userData))
      && (forall k :: k != ChoiceKey && k in s.userData ==> next.userData[k] == s.userData[k])
  {
    assert Command("cancel") != Command("skip");
    assert MessageText(Command("cancel")).value == "/cancel";
    assert "/cancel"[0] == '/' && "/cancel" !in DayLabels;
  }

  /** After /cancel and /start, no choice stored before the cancel is left over, in any
      session reachable from the start (there a stored choice is a label, never empty). */
  lemma CancelThenStartForgetsChoice(s: Session, filter: LabelFilter, eph: Ephemeris, today: Ordinal)
    requires Reachable(s) && (s.state == HowMany || s.state == Location)
    ensures
      var ended := Step(s, Command("cancel"), filter, eph, today).0;
      var restarted := Step(ended, Command("start"), filter, eph, today);
      restarted.1 == Handled && restarted.0.state == HowMany && ChoiceKey !in restarted.0.userData
  {
    CancelEnds(s, filter, eph, today);
  }

  /** /retry, in HOW_MANY or LOCATION, returns to HOW_MANY and keeps the session, a
      stored choice included; /skip in LOCATION changes nothing. */
  lemma RetryAndSkipKeepSession(s: Session, filter: LabelFilter, eph: Ephemeris, today: Ordinal)
    requires s.state == HowMany || s.state == Location
    ensures Step(s, Command("retry"), filter, eph, today) == (Session(HowMany, s.userData), Handled)
    ensures s.state == Location ==> Step(s, Command("skip"), filter, eph, today) == (s, Handled)
  {
    assert Command("retry") != Command("skip") && Command("retry") != Command("cancel");
    assert MessageText(Command("retry")).value == "/retry";
    assert "/retry"[0] == '/' && "/retry" !in DayLabels;
  }

  /** A week: with "Semana" stored, a location that has a timezone gets seven reports,
      for the seven days after today in ascending order. */
  lemma WeekScenario(s: Session, lat: real, lon: real, filter: LabelFilter, eph: Ephemeris, today: Ordinal)
    requires s.state == Location && ChoiceKey in s.userData && s.userData[ChoiceKey] == "Semana"
    requires eph.timezoneAt(lat, lon).Some? && today + 7 <= MaxOrdinal
    ensures
      var (next, out) := Step(s, SharedLocation(lat, lon), filter, eph, today);
      && next == Session(HowMany, s.userData - {ChoiceKey})
      && out.Reported? && |out.reports| == 7
      && forall i :: 0 <= i < 7 ==> ParseHeader(out.reports[i].header) == Some(FromOrdinal(today + i + 1))
  {
    LabelsMatchDaysChoice();
    WeekIsNextSevenDays(today);
    LocationConsumesChoice(s, lat, lon, filter, eph, today);
  }

  /** Where the location has no timezone, the location handler raises (UnknownTimeZone, or
      OverflowError when the first day already leaves the range of `date`) after deleting
      the choice: the conversation stays in LOCATION without a choice, and the next shared
      location raises KeyError('choice'). */
  lemma NoTimezoneStrandsLocation(s: Session, lat: real, lon: real, filter: LabelFilter, eph: Ephemeris, today: Ordinal)
    requires Safe(s) && s.state == Location && eph.timezoneAt(lat, lon).None?
    ensures
      var (next, out) := Step(s, SharedLocation(lat, lon), filter, eph, today);
      && out.Raised?
      && next == Session(Location, s.userData - {ChoiceKey})
      && !Safe(next)
      && Step(next, SharedLocation(lat, lon), filter, eph, today) == (next, Raised(KeyMissing(ChoiceKey)))
  {
    var key := Lower(s.userData[ChoiceKey]);
    var days := ReportDays(today, DaysChoice[key]);
    ReportsAtLocationOk(eph, lat, lon, days);
    ReportsAtLocationErrors(eph, lat, lon, days);
    ReportDaysSpan(today, DaysChoice[key]);
  }

  /** With the HOW_MANY regex as written, "Hoje" followed by a newline is accepted and stored as the choice, which has no day count; every shared location
      then raises a KeyError and leaves the conversation in LOCATION with that choice
      still stored. The exact filter leaves the text unhandled in HOW_MANY. */
  lemma TrailingNewlineStrandsLocation(s: Session, lat: real, lon: real, eph: Ephemeris, today: Ordinal)
    requires s.state == HowMany
    ensures
      var stored := Session(Location, s.userData[ChoiceKey := "Hoje\n"]);
      && Step(s, TextMessage("Hoje\n"), RegexAsWritten, eph, today) == (stored, Handled)
      && Step(stored, SharedLocation(lat, lon), RegexAsWritten, eph, today) == (stored, Raised(KeyMissing(Lower("Hoje\n"))))
      && !Reachable(stored)
    ensures Step(s, TextMessage("Hoje\n"), ExactLabels, eph, today) == (s, Unhandled)
  {
    TrailingNewlineAdmitted();
  }
}
