# Oh o RESH! bot — a verified model of its conversation and report logic

The bot answers, for each requested day and a shared location, the local times of four solar
moments: solar midnight, sunrise, solar noon and sunset. Its own logic is in `main.py`. The
model covers three parts of it:

- **The conversation** (`bot.dfy`, module `Bot`). It has the three states `REGULAR_CHOICE`,
  `HOW_MANY` and `LOCATION`, plus `Idle`. `Idle` means no conversation is in progress, and
  `ConversationHandler.END` returns there. The handler table of `main()` is modelled as the
  pure function `Step`. `Idle` accepts only the entry point `/start`. A state tries its own
  handlers first, then the fallbacks `/cancel` and `/retry`.
  The class `Conversation` holds the state and the user's `user_data` dictionary. It has one
  method per handler, and each method returns the state its Python handler returns.
  The `HOW_MANY` filter is a parameter: `RegexAsWritten` is the regex as `re.search` applies
  it, and `ExactLabels` admits exactly the three labels. `Conversation.Dispatch` is proved to
  behave exactly as `Step` with either filter.
  When a handler raises an exception, the framework leaves the state unchanged. Any change
  the handler made to `user_data` before raising is kept.
- **The day range** (`days.dfy`, module `Days`). `days_choice` maps `hoje` to 0, `amanhã`
  to 1 and `semana` to 7. A count of 0 or 1 gives one day, `today + count`. Any other count
  N gives the days `today + 1 … today + N`. `CollectReports` is the loop that builds one
  report per day, and it is proved equal to the function `Reports`.
- **The report** (`solar_report.dfy`, module `SolarReport`). `calculate_solartimes` is
  modelled over an `Ephemeris`. The `Ephemeris` holds the foreign calls as function values:
  the solar calculator, the timezone finder and the conversion to local time. A report has:
  - the header `DD/MM/YYYY e.v.`;
  - four rows, in order: `Meia noite`, `Nascer do sol`, `Meio dia`, `Pôr do sol`.

  Solar midnight is the previous day's local solar noon plus twelve hours on the wall clock.
  Each time is shown as `%H:%M:%S`. Two round-trip lemmas tie the text to its meaning:
  - the header reads back as the calendar date of the day;
  - each time reads back as the second of the local day.

Dates are Python `date` ordinals (`calendar.dfy`): 1 is 0001-01-01 and 3652059 is
9999-12-31. Adding days beyond that range raises `OverflowError`, which the model represents
as `DateOverflow`. `FromOrdinal` is the inverse of Python's `_ymd2ord` formula, and it is
proved to be an inverse in both directions. Adding one to an ordinal is proved to be the same
as stepping to the next calendar day.

What the proofs show about the conversation:

- **No handler ever returns `REGULAR_CHOICE`.** A raised exception keeps the state, so
  `REGULAR_CHOICE` is unreachable from the start.
- **While in `LOCATION`, a `choice` with a day count is stored** (the `Safe` predicate). With
  the exact filter, this holds after every event, except a shared location whose report
  computation raised. That
  happens when the location has no timezone, or when a day leaves the range of `date`. The
  Python handler deletes `choice` before it computes the reports. So after such a failure,
  the conversation stays in `LOCATION` without a choice. Every later location share then
  raises `KeyError('choice')`, until `/retry` or `/cancel`
  (`Bot.NoTimezoneStrandsLocation`). With the regex as written, a label followed by a
  newline is a second exception (`Bot.TrailingNewlineStrandsLocation`).
- **Whatever is raised, a stored choice is a keyboard label** (the `Reachable` predicate,
  with the exact filter). Every event keeps it, so the only `KeyError` a conversation can meet
  is `KeyError('choice')`, and a `/cancel` followed by `/start` always starts without a choice.

Notes on the code as written:

- The `HOW_MANY` filter is case-sensitive (main.py:192). It admits `Hoje`, `Amanhã` and
  `Semana`, and also each of them followed by one newline. The conversation lemmas use the
  exact filter; see Findings for the newline case.
- `REGULAR_CHOICE` runs `how_many` on any text (main.py:195-197), and no handler returns
  `REGULAR_CHOICE`.
- After sending the reports, the location handler returns `HOW_MANY` (main.py:153).
- A missing or unknown choice raises an uncaught `KeyError` (main.py:134-135). The user gets
  no reply, and the state does not change.

## Model

| member | source | states |
|---|---|---|
| `Calendar.AddDays` | main.py:143 | adding days to a date succeeds exactly when the result lies within years 1 to 9999; the result is the ordinal moved by that many days |
| `Calendar.FromOrdinal` | main.py:86 | the calendar date of an ordinal is a valid date whose ordinal is the one given |
| `Calendar.FromOrdinalOf` | main.py:86 | every valid date of years 1 to 9999 has an ordinal in range, and converting that ordinal back gives the same date |
| `Calendar.NextOrdinalIsNextDate` | main.py:150 | `date + timedelta(days=1)` is the next calendar day, across month and year ends and leap days |
| `Decimal.FixedRoundTrip` | main.py:79-86 | a zero-padded strftime field reads back as the number written |
| `SolarReport.ClockTextRoundTrip` | main.py:79-82 | a `%H:%M:%S` time is 8 characters long and reads back as the second of the local day of the time it shows |
| `SolarReport.HeaderRoundTrip` | main.py:86 | the header is 15 characters long and reads back as the calendar date of the day, followed by ` e.v.` |
| `SolarReport.TwelveHoursLater` | main.py:72-73 | adding twelve hours moves the clock reading half a day on, modulo one day, which is `HalfADayOn` of the reading |
| `SolarReport.SolarMomentsOf` | main.py:65-73 | the four local times are found exactly when the location has a timezone and the previous day is a `date`; they are, in order, the previous day's local solar noon plus twelve hours, then the day's local sunrise, solar noon and sunset |
| `SolarReport.DayTableReadsBack` | main.py:78-86 | a day's table has that day's date as header and one row per moment, in order, each showing the second of the day of its local time |
| `SolarReport.CalculateSolarTimesOutcome` | main.py:64-73 | a report is produced exactly when the location has a timezone and the previous day is a `date`; a missing zone raises first, then the date overflow |
| `SolarReport.MidnightRowReadsHalfADayOn` | main.py:71-78 | in a day's table whose first time is twelve hours after a given instant, the `Meia noite` row shows that instant's clock moved on by half a day |
| `SolarReport.SolarMidnightReadsHalfADayOn` | main.py:71-78 | the report's `Meia noite` row shows the clock of the previous day's local solar noon moved on by half a day on a 24-hour clock |
| `SolarReport.CalculateSolarTimesReport` | main.py:64-89 | a report has the day's date as header and exactly four rows in the order Meia noite, Nascer do sol, Meio dia, Pôr do sol; midnight shows the previous day's local solar noon plus twelve hours, and the others show the local sunrise, solar noon and sunset |
| `Text.Lower` | main.py:135 | `choice.lower()` keeps the length, leaves no ASCII or Latin-1 capital, keeps every other character and moves each ASCII capital to its small letter |
| `Text.LowerIdempotent` | main.py:135 | lower-casing a lower-cased text changes nothing |
| `Days.LabelsMatchDaysChoice` | main.py:48-57 | the three keyboard labels, lower-cased, are exactly the keys of `days_choice`; hoje maps to 0, amanhã to 1 and semana to 7 |
| `Days.TrailingNewlineAdmitted` | main.py:192 | the regex as written accepts "Hoje" followed by a newline, whose lower case is not a key of `days_choice` |
| `Days.IsDayLabelSound` | main.py:190-194 | every text the exact filter accepts is also accepted by the regex and has a day count |
| `Days.ReportDaysSpan` | main.py:140-150 | a count of 0 or 1 gives exactly the day `today + count`; a larger count N gives the days after today up to today + N, each once, in ascending order |
| `Days.ReportDaysConsecutive` | main.py:148-150 | for a count above 1 within the range of `date`, each report day is the calendar day after the one before it |
| `Days.WeekIsNextSevenDays` | main.py:148-150 | `semana` expands to the seven days `today+1 … today+7` |
| `Days.ReportsOk` | main.py:148-150 | the reports succeed exactly when every day is a `date` whose table succeeds; then there is one report per day, in order |
| `Days.ReportsAtLocationOk` | main.py:140-150 | at a location, the reports succeed exactly when the location has a timezone and every day and its previous day are `date`s |
| `Days.ReportsAtLocationErrors` | main.py:140-150 | the report computation raises only an OverflowError or an unknown timezone, never a KeyError |
| `Days.ReportsErrorSticks` | main.py:148-150 | once a day raises, the later days are not computed and the error is the result |
| `Days.CollectReports` | main.py:140-150 | the loop returns exactly the reports of the expanded days, or the first error raised |
| `Bot.Conversation.HandleStart` | main.py:92-103 | start returns HOW_MANY |
| `Bot.Conversation.HandleRegularChoice` | main.py:106-111 | regular_choice returns HOW_MANY and leaves the session alone |
| `Bot.Conversation.HandleHowMany` | main.py:114-127 | how_many stores the text under `choice`, leaves the other keys as they were and returns LOCATION |
| `Bot.Conversation.HandleLocation` | main.py:130-153 | location raises KeyError('choice') when no choice is stored, and KeyError on an unknown lower-cased choice, changing nothing in either case; otherwise it deletes the choice, returns the reports of the expanded days (or their error) and returns HOW_MANY |
| `Bot.Conversation.HandleSkipLocation` | main.py:156-161 | skip_location returns LOCATION and leaves the session alone |
| `Bot.Conversation.HandleCancel` | main.py:164-175 | cancel deletes `choice` exactly when it is present and non-empty, and returns END |
| `Bot.Conversation.TryFallbacks` | main.py:199-200 | /cancel and /retry are handled in any state; any other event is left unhandled |
| `Bot.Conversation.Dispatch` | main.py:183-201 | handling an event changes the state and the session as the handler table does, with the HOW_MANY filter given as a parameter (the regex as written or the exact labels) |
| `Bot.StepKeepsSafe` | main.py:183-201 | with the exact HOW_MANY filter, from a safe session, every event that does not raise leads to a safe session, and the location handler never raises a KeyError |
| `Bot.RegularChoiceUnreachable` | main.py:45 | a conversation that does not start in REGULAR_CHOICE never reaches it, whatever the events and with either HOW_MANY filter |
| `Bot.RunKeepsSafe` | main.py:183-201 | with the exact filter, along any sequence of events in which no handler raised, a safe session stays safe |
| `Bot.StepKeepsReachable` | main.py:130-201 | with the exact filter, every event keeps the session reachable (not REGULAR_CHOICE, any stored choice a keyboard label), whether or not its handler raised; a KeyError raised is always KeyError('choice') |
| `Bot.RunKeepsReachable` | main.py:183-201 | with the exact filter, along any sequence of events, raising ones included, a reachable session stays reachable and no outcome is a KeyError other than KeyError('choice') |
| `Bot.FromInitialReachable` | main.py:183-201 | with the exact filter, every session reached from the start of a conversation is reachable, and is not in REGULAR_CHOICE |
| `Bot.HowManyAcceptsOnlyLabels` | main.py:190-194 | with the exact filter, in HOW_MANY, the state moves to LOCATION exactly on the texts Hoje, Amanhã and Semana, with the text stored as choice; a shared location is not accepted there |
| `Bot.LocationConsumesChoice` | main.py:130-153 | in LOCATION, a shared location deletes the choice; the reports, one per expanded day with that day's header, come exactly when the location has a timezone and the days are in range, and the state returns to HOW_MANY; otherwise an error is raised and the state stays LOCATION |
| `Bot.CancelEnds` | main.py:164-175 | /cancel, from HOW_MANY or LOCATION, ends the conversation and deletes a non-empty choice; the other keys and their values are unchanged |
| `Bot.CancelThenStartForgetsChoice` | main.py:168-169 | from any reachable session in HOW_MANY or LOCATION, after /cancel and then /start no earlier choice is stored |
| `Bot.RetryAndSkipKeepSession` | main.py:186-200 | /retry returns to HOW_MANY and keeps the session, a stored choice included; /skip in LOCATION changes nothing |
| `Bot.WeekScenario` | main.py:142-153 | with Semana stored and a location that has a timezone, exactly seven reports are sent, for today+1 … today+7 in order, and the state returns to HOW_MANY |
| `Bot.NoTimezoneStrandsLocation` | main.py:133-150 | at a location without a timezone, the handler raises after deleting the choice; the conversation stays in LOCATION, and the next location share raises KeyError('choice') |
| `Bot.TrailingNewlineStrandsLocation` | main.py:130-192 | with the regex as written, "Hoje" plus a newline in HOW_MANY is stored as the choice and moves to LOCATION; a location share there then raises KeyError and keeps the session, which is not reachable; with the exact filter the text is not handled |

## Findings

| source | as written | input that shows it | evidently intended | confidence | as-written member | corrected member |
|---|---|---|---|---|---|---|
| main.py:192 | the HOW_MANY filter is applied with `re.search`, and its final `$` also matches just before a trailing newline | the text "Hoje" followed by a newline: it is stored as the choice, its lower case is not a key of `days_choice`, and every location share raises KeyError | only the exact labels pass, as with `re.fullmatch` or `\Z` | low: not executed; Telegram clients usually trim trailing whitespace before sending | `Days.TrailingNewlineAdmitted` | `Days.IsDayLabelSound` |

The conversation lemmas about `Safe` and `Reachable` use the exact filter `ExactLabels`.
`Bot.TrailingNewlineStrandsLocation` runs `Step` with the filter as written and shows the
effect on the conversation.

## Left out

- Telegram transport: replies, keyboards, HTML markup, polling and async dispatch are I/O. Only the effect of each handler on the state and the session is modelled.
- Command parsing: a command is an event carrying its name. Arguments, `@botname` suffixes and message entities belong to the framework and are not modelled.
- Conversations of several users or chats: one user in one chat is modelled. `allow_reentry`, per-chat keying and timeouts are framework options the bot leaves at their defaults.
- The solar calculator (`SolarTime.sun_utc`, `solar_noon_utc`), `TimezoneFinder.timezone_at` and pytz conversions are foreign floating-point code. They are the function fields of `Ephemeris`, and their errors (for example polar day) are not modelled. Latitudes and longitudes are `real`, and instants are integer microseconds.
- `timezone_at` returning a name that pytz does not know is treated like `None`: both raise when the zone is built.
- PrettyTable layout: only the header text and the rows (label, time text) are kept, not the borders, alignment or the `<pre>` wrapper.
- Locale setup, logging, the version check and reading `BOT_TOKEN` are process configuration.
- `date.today()` is a parameter (`today`, or the `today` of each `Input`).
- `Text.Lower`: covers ASCII and Latin-1 capitals only, not the rest of Unicode's lower-casing. From the start of a conversation, only the three labels reach it, and with the regex as written also each label followed by a newline; all of these are Latin-1, where `Lower` agrees with `str.lower`.
- `SolarReport.Header`: `%Y` is written with four digits for every year. For years before 1000, the C library's `strftime` may print fewer digits, and this model does not follow it.
- Python's `_ord2ymd` 400-year-cycle arithmetic is replaced by `Calendar.FromOrdinal`, which is proved to be the inverse of `_ymd2ord`. Python's datetime module is not part of this model.
