# Rippling time tracking from the command line: the time-entry engine

This project models, in Dafny, the part of the Rippling command-line client
that decides what gets booked as working time. The command parses the shifts a
user types for a day. With `--check` it refuses days that are not working days
(weekend first, then public holiday, then approved leave). It adds the
statutory minimum breaks of German labour law and assembles a new time entry
of shifts and breaks of the policy's manual break type. It also drives the
live clock: clocking out, starting a break and ending a break, each guarded by
the state of the current open entry.

The repository has two revisions, and both are modelled:

- the older single crate under `src/`, on `chrono` and `attohttpc`;
- the newer split into `cli/` and `api/`, on `time` and `ureq`.

Code that is textually the same in both revisions is modelled once. That
covers the break rule, `manual_break_type`, `current_break`, `duration`, the
workday check and the error classification. The newer revision is the
reference for the rest.

Modules:

| module | what it is |
|---|---|
| `Wrappers` | `Option`, `Result`, and `Outcome`, a value or the `unwrap`/`assert!` that panicked |
| `Clock` | times of day as seconds since midnight, `OffsetDateTime` as UTC seconds plus offset, dates as day numbers, `duration / 2` truncating toward zero, `Time ± Duration` wrapping at midnight |
| `BreakRule` | `minimum_break_for` |
| `BreakPlacement` | `setup_minimum_breaks` of the newer revision |
| `ShiftParser` | `parse_input_shifts` of both revisions, the `H[:MM]-H[:MM]` grammar |
| `BreakPolicy` | `manual_break_type`, `active_break_policy` |
| `Workday` | `pto::check` |
| `ApiErrors` | the client error type, its `Display`, and the classification of failed responses |
| `TimeEntries` | entries and breaks, `current_time_entry`, `current_break`, `duration`, the endpoint paths, and the `NewTimeEntry` class with its `Display` |
| `Commands`, `LegacyCommands` | the command error types of each revision |
| `Live`, `LegacyLive` | `clock_out`, `start_break`, `end_break` of each revision |
| `LegacyTimeEntries` | the endpoint paths of the older client |
| `ManualEntry` | `execute` and `draft_entry` of the newer revision |
| `LegacyManualEntry` | `add_entry`, `naive_to_fixed_datetime` and `set_minimum_breaks` of the older revision |

The network, the threads and the clock become inputs:

- Fetched values are `Result` inputs. A fetch that depends on an earlier answer is a function-typed input: the break policy by id, the server's response to each post, the creation of an entry.
- The joined result of the workday check in `draft_entry` is an input of `ManualEntry.Draft`. `Workday.Check` computes it from the holiday calendar and the leave requests.
- The local UTC offset is an input. The newer revision takes it as a function of the local wall-clock time. The older one takes the single offset in force when the command runs.
- A live command returns the requests it sent together with its outcome. A guard can therefore be stated as "nothing was sent".

## Model

| member | source | states |
|---|---|---|
| BreakRule.MinimumBreakFor | cli/src/commands/manual_entry.rs:128-141 | the break is 0 exactly for shifts up to 6 h; 15-30 min between 6 h and 9 h; over 30 min and at most 45 min beyond 9 h |
| BreakRule.MiddleBand | cli/src/commands/manual_entry.rs:130-135 | between 6 h and 9 h the break is the excess over 6 h clamped to [15 min, 30 min] |
| BreakRule.LongShift | cli/src/commands/manual_entry.rs:136-139 | past 9 h the break is the 9 h amount plus min(excess, 15 min), never above 45 min |
| BreakRule.Monotone | src/commands/manual_entry.rs:63-76 | a longer shift never owes a shorter break |
| BreakRule.BreakFitsInShift | cli/src/commands/manual_entry.rs:128-141 | a break owed is shorter than its shift by more than five hours |
| BreakRule.Table | cli/src/commands/manual_entry.rs:161-176 | the unit-test table of shift minutes against break minutes |
| BreakRule.BreakGuards | cli/src/commands/manual_entry.rs:116 | `whole_minutes() > 0` holds exactly for shifts over 6 h; `num_minutes() >= 0` holds for every shift |
| Clock.Half | cli/src/commands/manual_entry.rs:117 | halving a signed duration truncates toward zero |
| Clock.WholeMinutes | cli/src/commands/manual_entry.rs:116 | whole minutes of a signed duration, truncated toward zero |
| Clock.AddToTime | cli/src/commands/manual_entry.rs:117-118 | adding to a time of day wraps at midnight and is plain addition when it does not cross it |
| Clock.SubFromTime | cli/src/commands/manual_entry.rs:117 | subtracting from a time of day wraps at midnight |
| Clock.HalfOfWholeMinutes | cli/src/commands/manual_entry.rs:117 | halving a whole-minute duration loses nothing |
| Clock.AssumeOffset | cli/src/commands/manual_entry.rs:104-107 | the instant reads the given local time in the given offset |
| Clock.Later | src/commands/manual_entry.rs:53-54 | adding a duration to an instant moves it by that much and keeps its offset |
| Clock.FromHm | cli/src/commands/manual_entry.rs:148-149 | `Time::from_hms(h, m, 0)` for an hour below 24 and a minute below 60 |
| Clock.CivilFromDays | cli/src/commands/pto.rs:37 | the calendar month and day of a day number are in range |
| Clock.NewYear2023 | cli/src/commands/pto.rs:53-63 | 2023-01-01 is day 19358, a Sunday of year 2023 |
| Clock.HourMinute | api/src/time_entries.rs:80 | `[hour]:[minute]`: two digits reading the local hour, a colon, two digits reading the local minute |
| Clock.HourMinuteReadsBack | api/src/time_entries.rs:80 | read back as an hour and a minute, the rendering is the local time of day cut down to the whole minute |
| Clock.TwoDigits | api/src/time_entries.rs:80 | exactly two decimal digits whose value is the number, zero-padded |
| Clock.NatToString | api/src/error.rs:18 | decimal digits whose value is the number, for every status code, with no leading zero (a leading `0` only for 0 itself); a single digit exactly below 10 |
| BreakPlacement.SetupMinimumBreaks | cli/src/commands/manual_entry.rs:110-125 | the output is every pair in order with its owed break spliced in; it is two boundaries longer per owed break and keeps the first and last boundary |
| BreakPlacement.AppendPair | cli/src/commands/manual_entry.rs:114-122 | one step of the loop appends exactly the boundaries the pair turns into: the pair itself, or the pair with its centred break |
| BreakPlacement.PairShape | cli/src/commands/manual_entry.rs:113-122 | a pair of at most 6 h is left alone; a longer pair becomes four boundaries with the same ends |
| BreakPlacement.PairWithBreak | cli/src/commands/manual_entry.rs:113-122 | a pair becomes itself or four boundaries, always with its own start first and its own end last |
| BreakPlacement.Spliced | cli/src/commands/manual_entry.rs:110-125 | splicing never shortens the list, and only the empty list splices to nothing |
| BreakPlacement.BreaksOwed | cli/src/commands/manual_entry.rs:113-117 | at most one break is owed per pair of boundaries |
| BreakPlacement.CentredBreak | cli/src/commands/manual_entry.rs:116-119 | an inserted break starts at start + d/2 - b/2, lasts b, lies strictly inside the pair without wrapping, and has equal margins for whole-minute pairs |
| BreakPlacement.SplicedLength | cli/src/commands/manual_entry.rs:110-125 | the spliced list is the input plus two boundaries per pair over 6 h |
| BreakPlacement.SplicedEnds | cli/src/commands/manual_entry.rs:110-125 | the first and last boundary are never moved |
| BreakPlacement.NothingOwed | cli/src/commands/manual_entry.rs:113-122 | a list with no pair over 6 h comes back unchanged |
| BreakPlacement.EightToFive | cli/src/commands/manual_entry.rs:114-119 | 08:00-17:00 owes 30 min, placed at 12:15-12:45 |
| ShiftParser.MatchClock | cli/src/commands/manual_entry.rs:144 | a recognised side is one or two digits, optionally a colon and two digits, and its captures spell the input back |
| ShiftParser.MatchRange | cli/src/commands/manual_entry.rs:144 | a recognised argument is two well-formed sides joined by a dash, and the captures spell it back |
| ShiftParser.ParseInputShifts | cli/src/commands/manual_entry.rs:143-155 | a non-matching argument yields the hint; a matching one yields its times; an hour above 23 or a minute above 59 panics at `from_hms(..).unwrap()`, and a match with two valid times always yields them |
| ShiftParser.LegacyParseInputShifts | src/commands/manual_entry.rs:78-92 | same grammar, but an impossible time is the error `Invalid time format` |
| ShiftParser.RevisionsAgree | src/commands/manual_entry.rs:78-92 | both revisions give the same result wherever the newer one does not panic |
| ShiftParser.MatchClockComplete | cli/src/commands/manual_entry.rs:144 | every spelling the grammar allows for a side is recognised with its captures |
| ShiftParser.MatchRangeComplete | cli/src/commands/manual_entry.rs:144 | every range the grammar spells is recognised with its captures |
| ShiftParser.ParseFormat | cli/src/commands/manual_entry.rs:143-155 | a whole-minute range written `H:MM-H:MM` parses back to itself in both revisions |
| ShiftParser.MinutesDefaultToZero | cli/src/commands/manual_entry.rs:148-149 | missing minutes count as `:00` |
| ShiftParser.MissingEnd | cli/src/commands/manual_entry.rs:152-154 | `8-` is refused with the hint |
| ShiftParser.HourOutOfRange | cli/src/commands/manual_entry.rs:148 | `25:00-26:00` matches the grammar and panics in the newer revision; the older one reports `Invalid time format` |
| BreakPolicy.ManualIds | api/src/break_policy.rs:83-88 | the ids of the eligible entries that allow manual recording, in order |
| BreakPolicy.FirstQualifying | api/src/break_policy.rs:89-91 | the first break type that is not deleted and whose id is eligible |
| BreakPolicy.ManualBreakType | api/src/break_policy.rs:82-92 | the result is the first break type in policy order that is not deleted and is manually eligible; it is none exactly when no type qualifies |
| BreakPolicy.NonManualEntryIgnored | api/src/break_policy.rs:86 | inserting an eligible entry without manual recording anywhere changes nothing |
| BreakPolicy.DeletedTypeSkipped | src/client/break_policy.rs:52 | a deleted type is never chosen, even when listed first |
| BreakPolicy.ActiveBreakPolicy | api/src/break_policy.rs:8-14 | a fetch error passes through; after a successful fetch a client without a role panics at `role().unwrap()`; otherwise the entry keyed by the role, or `UnexpectedPayload` when there is none |
| Workday.IsWeekend | cli/src/commands/pto.rs:53-63 | the weekday exactly on Saturday and Sunday |
| Workday.YearBucket | cli/src/commands/pto.rs:37 | the first calendar bucket of the year, or none when no bucket has it |
| Workday.FirstCovering | cli/src/commands/pto.rs:38-41 | the first holiday whose inclusive span contains the date, or none |
| Workday.HolidayIn | cli/src/commands/pto.rs:37-43 | a holiday found covers the date and comes from a bucket of the given year |
| Workday.CheckHoliday | cli/src/commands/pto.rs:34-44 | a fetch error passes through; a holiday found covers the date and comes from the bucket of the date's year |
| Workday.Decide | cli/src/commands/pto.rs:23-31 | a weekend wins; an error surfaces only when no earlier check answered, unchanged; a holiday, leave or a working day is reported exactly when the earlier checks were negative and its own check answered yes (no for a working day) |
| Workday.Check | cli/src/commands/pto.rs:18-32 | a weekend is a Saturday or Sunday; a holiday reported covers the date and comes from the bucket of its year; leave means some request covers the date; an error is one of the two fetch errors |
| Workday.AnyCovering | cli/src/commands/pto.rs:49 | true exactly when some leave request covers the date |
| Workday.IsLeaveRequest | cli/src/commands/pto.rs:46-51 | a fetch error passes through; otherwise whether some request covers the date |
| Workday.WeekendWins | cli/src/commands/pto.rs:23-24 | a weekend is reported whatever the other fetches returned, errors included |
| Workday.HolidayBeatsLeave | src/commands/pto.rs:23-26 | on a weekday a holiday is reported before leave is consulted |
| Workday.WorkingDayOnlyIfAllNegative | cli/src/commands/pto.rs:18-32 | a working day exactly when all three sub-checks are negative |
| Workday.ErrorsSurface | cli/src/commands/pto.rs:25-27 | a fetch error surfaces only on a weekday, the leave error only when there is no holiday, each unchanged |
| Workday.HolidayNeedsYearBucket | cli/src/commands/pto.rs:37-42 | without a bucket for the date's year there is no holiday |
| Workday.FirstHolidayReported | cli/src/commands/pto.rs:37-41 | the first covering holiday of the first bucket of the year is the one reported |
| Workday.NewYearOnSunday | src/commands/pto.rs:16-30 | New Year's Day 2023 is reported as a Sunday weekend, not as the holiday |
| ApiErrors.ClassifyJson | api/src/error.rs:54-66 | an empty JSON array panics; otherwise the status and body are kept, and the description comes from a leading string or a string `detail` |
| ApiErrors.BodyDescription | api/src/error.rs:55-64 | a description exists exactly for an array led by a string or an object with a string `detail`, and it is that string |
| ApiErrors.FromResponse | api/src/error.rs:49-71 | no JSON content type gives an unhandled status; a JSON one with a readable body is what `ClassifyJson` makes of it, an API error carrying the body unless the body is an empty array; a body that is not JSON panics; the status is always kept |
| ApiErrors.LegacyFromResponse | src/client/error.rs:30-57 | a Content-Type that is not visible ASCII panics at `to_str().unwrap()`; every other response is classified as in the newer revision, and whatever is returned is what the newer one returns |
| ApiErrors.NonAsciiContentType | src/client/error.rs:34 | a Content-Type with a non-ASCII letter aborts the older conversion, while the newer one reports the status as unhandled |
| ApiErrors.FromUreq | api/src/error.rs:45-76 | a failure without a response is `Generic` with its text; one with a response is classified like a response |
| ApiErrors.Render | api/src/error.rs:13-25 | a description or a generic message is shown as is |
| ApiErrors.RenderFallback | api/src/error.rs:16-21 | an API error without description reads exactly like an unhandled status |
| ApiErrors.MessageOfResponse | src/client/error.rs:15-57 | a classified response reads as the server's description when there is one, otherwise as the status line |
| ApiErrors.MediaTypes | api/src/error.rs:51 | a JSON content type with parameters counts as JSON; `text/html` does not |
| ApiErrors.ErrorBodies | api/src/error.rs:85-143 | the two unit tests: `["Oops!"]` with 400 and `{"detail": "Not found"}` with 404 |
| TimeEntries.CurrentTimeEntry | api/src/time_entries.rs:23-32 | none exactly for an empty list, otherwise the first entry |
| TimeEntries.CurrentBreak | api/src/time_entries.rs:185-187 | the first break without an end time; none exactly when every break has ended |
| TimeEntries.FirstOpen | src/client/time_entries.rs:79-81 | the first open break of a list, or none when all are closed |
| TimeEntries.BreakDuration | api/src/time_entries.rs:191-196 | present exactly when the break has ended, and then the elapsed time from start to end |
| TimeEntries.StateOf | cli/src/commands/live.rs:59-62 | clocked out for an empty list; on a break when the current entry has an open break; clocked in otherwise |
| TimeEntries.ActionPaths | api/src/time_entries.rs:34-68 | the start-break, end-break and stop-clock paths end in the entry id and their own action, and are pairwise distinct |
| TimeEntries.BreakItem | api/src/time_entries.rs:88-92 | `HH:MM-HH:MM`: the local hour and minute of the break's start, a dash, those of its end |
| TimeEntries.Items | api/src/time_entries.rs:84-94 | one rendered item per break, in order |
| TimeEntries.RenderedLayout | api/src/time_entries.rs:83-95 | no breaks render as empty; n breaks render as 13n-2 characters, with item k at 13k and `", "` between items |
| TimeEntries.NoLeadingSeparator | api/src/time_entries.rs:85-87 | the rendering never starts with the separator |
| TimeEntries.JoinedLayout | api/src/time_entries.rs:84-94 | eleven-character items joined with `", "` sit at offsets 13k, with the separator between each two |
| TimeEntries.WeekdayShort | api/src/time_entries.rs:79 | a three-letter weekday name that names that weekday back |
| TimeEntries.MonthShort | api/src/time_entries.rs:79 | a three-letter month name that names that month back |
| TimeEntries.DateText | api/src/time_entries.rs:79 | `Www DD Mmm`: the date's weekday, its day of the month as two digits, and its month |
| TimeEntries.ShiftLine | api/src/time_entries.rs:101-107 | the shift's start date as `DateText`, then the local hour and minute of its start and end around a dash |
| TimeEntries.NewTimeEntry.constructor | api/src/time_entries.rs:170-172 | a new entry has no shifts and no breaks, and source `WEB` |
| TimeEntries.NewTimeEntry.AddShift | api/src/time_entries.rs:174-176 | appends one shift and leaves the breaks and source unchanged |
| TimeEntries.NewTimeEntry.AddBreak | api/src/time_entries.rs:178-181 | appends one break of the given type and leaves the shifts and source unchanged |
| TimeEntries.NewTimeEntry.RenderBreaks | api/src/time_entries.rs:83-95 | the fold produces the rendering with `", "` before every item but the first |
| TimeEntries.NewTimeEntry.Display | api/src/time_entries.rs:98-113 | panics exactly when there is no shift; starts with the first shift's date and times; adds ` (Breaks …)` exactly when there are breaks |
| Live.ClockOut | cli/src/commands/live.rs:42-53 | a fetch error or an empty list sends nothing; otherwise exactly one stop-clock post for the current entry |
| Live.StartBreak | cli/src/commands/live.rs:55-73 | refuses when clocked out or already on a break, before any request; fetches the policy, then posts a start with its manual type; a failed post is the API error; otherwise it panics exactly when the response has no open break and returns that open break when there is one |
| Live.EndBreak | cli/src/commands/live.rs:75-95 | refuses when clocked out or not on a break; posts an end naming the open break's own type; reports the last break, or an unexpected response for none, and panics exactly when that break is still open |
| Live.Guards | cli/src/commands/live.rs:42-95 | a request goes out only from the state in which the change is legal, aimed at the current entry |
| Live.EmptyListIsClockedOut | cli/src/commands/live.rs:45-51 | an empty list of open entries is `NotClockedIn` for every command, with nothing sent |
| LegacyLive.ClockOut | src/commands/live.rs:19-26 | one stop-clock post for the current entry, returning the server's entry |
| LegacyLive.StartBreak | src/commands/live.rs:28-44 | as in the newer revision, but a refusal carries the open break; a failed post is the API error; it panics exactly when the response has no open break, and otherwise returns that break |
| LegacyLive.EndBreak | src/commands/live.rs:46-60 | posts an end naming the open break's type and returns the last break of the response, or an unexpected response |
| LegacyLive.StartBreakWhenNotClockedIn | src/commands.rs:133-144 | the unit test: an empty list of open entries gives `NotClockedIn` |
| LegacyLive.StartBreakReachesEndBreak | src/client/time_entries.rs:16-21 | with a server that opens a break only on the start-break path, a legal start of a break panics, because the request goes to the end-break path |
| LegacyTimeEntries.SwappedBreakPaths | src/client/time_entries.rs:16-28 | the older start-break request goes to the end-break path and the end-break request to the start-break path |
| LegacyTimeEntries.LegacyPath | src/client/time_entries.rs:16-42 | starting a break goes to the path of ending one and the other way round; every other request goes to its own path |
| ManualEntry.TargetDate | cli/src/commands/manual_entry.rs:37-42 | today when `days_ago` is absent; otherwise exactly `days_ago` days back, so 0 to 255 days |
| ManualEntry.Events | cli/src/commands/manual_entry.rs:60-64 | two boundaries per range |
| ManualEntry.ToInstantReading | cli/src/commands/manual_entry.rs:104-107 | the placed instant shows the target date and the typed time in the zone's offset at that local time |
| ManualEntry.Instants | cli/src/commands/manual_entry.rs:66-69 | every boundary is placed on the target date, in order |
| ManualEntry.ToInstant | cli/src/commands/manual_entry.rs:66-69 | the instant reads the date and the typed time on the local clock, in the zone's offset at that local time |
| ManualEntry.Build | cli/src/commands/manual_entry.rs:71-81 | an entry is built exactly when there are ranges and the fetched policy has a manual type; it has one shift, the `WEB` source, and only breaks of that type |
| ManualEntry.Draft | cli/src/commands/manual_entry.rs:44-82 | with `check`, a failed workday check panics and a day that is not a working day is refused, and those are the only refusals; otherwise the result is the built entry |
| ManualEntry.BreaksOf | cli/src/commands/manual_entry.rs:79-81 | consecutive pairs become breaks of one type, in order |
| ManualEntry.Boundaries | cli/src/commands/manual_entry.rs:59-65 | the spliced boundary list is even, and empty exactly when there are no ranges |
| ManualEntry.Assembled | cli/src/commands/manual_entry.rs:71-81 | one shift from the first to the last boundary; break k spans the inner pair at positions 2k+1 and 2k+2, of the given type, so every inner pair is a break |
| ManualEntry.BuildEntry | cli/src/commands/manual_entry.rs:71-81 | panics on an empty list, a failed policy fetch or a policy without a manual type; otherwise the shift is the outer boundaries and the breaks are the inner pairs |
| ManualEntry.DraftEntry | cli/src/commands/manual_entry.rs:44-82 | the method's result is the specification `Draft` |
| ManualEntry.BuildAgrees | cli/src/commands/manual_entry.rs:71-81 | the built entry is the one `Build` describes |
| ManualEntry.DraftShape | cli/src/commands/manual_entry.rs:59-81 | one shift from the first start to the last end; one break per gap plus one per range over 6 h; every break of the manual type |
| ManualEntry.PlacedShape | cli/src/commands/manual_entry.rs:59-81 | the same shape for the assembled boundary list, whatever the type |
| ManualEntry.BoundaryEnds | cli/src/commands/manual_entry.rs:59-64 | the spliced boundaries run from the first range's start to the last range's end, two per range and two more per owed break |
| ManualEntry.BuildAssembles | cli/src/commands/manual_entry.rs:73-81 | with ranges and a manual type, the entry is the assembled boundary list |
| ManualEntry.GapsBecomeBreaks | cli/src/commands/manual_entry.rs:59-81 | when no range owes a break, break k runs from the end of range k to the start of range k+1 |
| ManualEntry.PlacedGaps | cli/src/commands/manual_entry.rs:79-81 | the inner pairs of a list with nothing owed are the gaps between ranges |
| ManualEntry.GapAt | cli/src/commands/manual_entry.rs:79-81 | break k of the flattened ranges spans the gap after range k |
| ManualEntry.CheckedDayRefused | cli/src/commands/manual_entry.rs:51-57 | with `--check`, a day that is not a working day is refused with its outcome; a working day changes nothing; a refusal means the day was not a working day |
| ManualEntry.UncheckedIgnoresCalendar | cli/src/commands/manual_entry.rs:51 | without `--check` the workday check plays no part, and no command error is returned |
| ManualEntry.NoRangesPanics | cli/src/commands/manual_entry.rs:73 | no ranges panics at `events.remove(0)` once the check has passed |
| ManualEntry.NewYearRefused | cli/src/commands/manual_entry.rs:51-56 | checking New Year's Day 2023 refuses it as a Sunday |
| ManualEntry.SplitDay | cli/src/commands/manual_entry.rs:59-81 | 08:30-14:00 and 15:30-17:00 give one shift 08:30-17:00 with the break 14:00-15:30 |
| ManualEntry.SplitDayOwesNothing | cli/src/commands/manual_entry.rs:113-116 | neither 5 h 30 nor 1 h 30 owes a statutory break |
| LegacyManualEntry.FixedInstant | src/commands/manual_entry.rs:36-42 | the instant shows the date and time in the offset in force when the command runs, whatever the date |
| LegacyManualEntry.ShiftsOf | src/commands/manual_entry.rs:26-31 | one shift per parsed range, in input order |
| LegacyManualEntry.ShiftOf | src/commands/manual_entry.rs:26-31 | the shift starts and ends on the target date at the typed times, both in the offset of the moment of the call |
| LegacyManualEntry.CentredBreak | src/commands/manual_entry.rs:50-55 | a break of the manual type that starts d/2 - b/2 into the shift and lasts the statutory b |
| LegacyManualEntry.CentredBreaks | src/commands/manual_entry.rs:48-59 | one centred break per shift, in shift order |
| LegacyManualEntry.SetMinimumBreaks | src/commands/manual_entry.rs:45-60 | panics with nothing changed when there is no manual type; otherwise appends one centred break per shift and leaves the shifts alone |
| LegacyManualEntry.EntryFor | src/commands/manual_entry.rs:24-32 | panics exactly when there is no manual type; otherwise the payload has the shifts in order and one centred break per shift |
| LegacyManualEntry.Added | src/commands/manual_entry.rs:19-34 | a failed policy lookup or fetch is an API error before anything is submitted; it panics exactly when both fetches succeed and the policy has no manual type; otherwise the payload is submitted and the result is the created entry, or the submission's failure as an API error |
| LegacyManualEntry.AddEntry | src/commands/manual_entry.rs:19-34 | the method's result is the specification `Added` |
| LegacyManualEntry.LongShiftBreakInside | src/commands/manual_entry.rs:50-55 | a shift over 6 h gets its break strictly inside it, with equal margins for whole-minute shifts |
| LegacyManualEntry.ShortShiftEmptyBreak | src/commands/manual_entry.rs:51 | a shift of at most 6 h still gets a break, of length zero, at its midpoint |
| LegacyManualEntry.OneBreakPerShift | src/commands/manual_entry.rs:26-59 | as many breaks as shifts, all of the manual type, and every instant in the offset in force when the command runs |
| LegacyManualEntry.NoManualTypePanics | src/commands/manual_entry.rs:47 | a policy without a manual type panics after both fetches, and nothing is submitted |
| LegacyManualEntry.MorningShift | src/commands/manual_entry.rs:49-54 | 08:00-12:00 gets the empty break 10:00-10:00 |

## Left out

- Transport: HTTP requests, JSON (de)serialisation, sessions, persistence and the spinner. Fetches are inputs or function-typed inputs.
- Threads and the two-second sleep of the older holiday check. The joined results are inputs, taken in the order the source joins them.
- The local time zone. The newer revision's `local_offset_estimated_at` is an input function of the local wall-clock time. The older revision's `Local::now()` offset is one input.
- Sub-second precision and the fractional `regularHours` and `unpaidBreakHours` fields of an entry. Breaks' floating-point length limits and the hour count printed by `end_break` are also left out.
- The confirmation prompt and `submit_entry` of the newer `draft_entry`. The model stops at the entry that would be submitted.
- `status`, `clock_in` and `start_clock`. They make no decision beyond a fetch.
- The `Display` of the command errors in `cli/src/commands.rs` and `src/commands.rs`. These are fixed strings per variant.
- The regular expression engine. `\d` is modelled as the ASCII digits, although the Rust `regex` crate also matches other Unicode decimal digits.
- The fixture files of the unit tests. Tests that read them are not restated.
- The older client's `break_policy::active_policy` and `time_entries::create_entry` are not part of this model. Their results are the inputs `activePolicy` and `create` of `LegacyManualEntry.Added`.
- The older `NewTimeEntry` type is not part of this model. The older commands use the newer `TimeEntries.NewTimeEntry`, which has the same operations.
- Live.StartBreak: the newer `start_break` returns `()` and prints the break it started. The model returns that break as the command's value.
- Live.StartBreak: `AlreadyOnBreak` carries no break, because `cli/src/commands/live.rs` writes it without one.
- Live.EndBreak: the newer `end_break` returns `()` and prints the last break (`cli/src/commands/live.rs:75-95`). The model returns that break as the command's value.
- LegacyLive.StartBreakReachesEndBreak: the server's behaviour is an assumption of the lemma, not a model of the server.

## Findings

| source | as written | input that shows it | evidently intended | confidence | as-written member | corrected member |
|---|---|---|---|---|---|---|
| src/client/time_entries.rs:16-28 | `start_break` posts to `{id}/end_break` and `end_break` posts to `{id}/start_break` | any legal `start_break`: the post goes to `time_tracking/api/time_entries/{id}/end_break` | each posts to its own action, as `api/src/time_entries.rs:34-50` does | high; not executed | LegacyTimeEntries.SwappedBreakPaths | TimeEntries.ActionPaths |
| src/commands/manual_entry.rs:51 | the guard `break_duration.num_minutes() >= 0` always holds, so every shift gets a break | a single shift 08:00-12:00 gets the empty break 10:00-10:00 | a break only for a shift that owes one (`whole_minutes() > 0`, as `cli/src/commands/manual_entry.rs:116` does) | medium; not executed | LegacyManualEntry.ShortShiftEmptyBreak | BreakPlacement.PairShape |
