# StudyHub calendar, dashboard and calculator in Dafny

This project models three parts of the StudyHub desktop application and proves
properties of them.

- **The calendar store** (`core/calendar.py`). This is an in-memory map from event ids to events, in insertion order. The model covers:
  - adding, updating, removing and looking up events;
  - the three listings: all events, one day's events, and one Monday-to-Sunday week's events;
  - importing the VEVENT components of an iCalendar file;
  - the helpers that normalise titles, descriptions, colours and datetimes.
- **The home dashboard** (`ui/home_view.py`). This covers:
  - the three counters (today, this week, total);
  - the selection of events that overlap the seven days from now;
  - the card for the next event;
  - the list of at most six upcoming entries.
- **The calculator dialog** (`ui/calculator_view.py`, `core/calculator.py`). The input line `current` is edited key by key: digits, ".", the four operators, "+/-", "=", backspace and clear. The display shows it as `update_display` renders it.

Modules, one file each:

- `Wrappers`: Option, Result, Outcome, and small facts about sequences.
- `Text`: Python's `str.strip`.
- `LocalTime`: datetimes, dates, the local zone, `_ensure_timezone`, `_normalize_to_date`, `_week_start`, `_as_datetime`.
- `Palette`: the colour presets.
- `Events`: `Event`, title normalisation and the field updates of `update_event`.
- `Ordering`: filtering and the stable sort.
- `Calendar`: `CalendarStore` and the import.
- `Home`: the dashboard.
- `CalculatorView`: the calculator.

How the model represents things:

- **Time.** An instant is an integer number of microseconds on the local wall clock, the resolution of a Python `datetime`. Day `d` covers `[d*86400*10^6, (d+1)*86400*10^6)`, and day 0 is a Monday. Comparisons of starts and ends, and the sort by start, therefore see sub-second differences as the source does.
- **Local zone.** It is the fixed offset of one hour, the fallback zone of `core/calendar.py`.
- **`CalendarStore`.** It is a class. Its `events` map plays the role of the Python dict, and its `order` sequence records the dict's insertion order. Keeping the order makes the tie order of `sorted` exact.
- **Ids.** `uuid4` becomes "some id not drawn before". The store's `issued` set records every id drawn so far, so an id freed by `remove_event` is never handed out again.

## Model

| member | source | states |
|---|---|---|
| Text.StripRemovesOuterWhitespace | core/calendar.py:82-86 | `str.strip` returns the middle of the input; everything removed at either end is whitespace, and neither end of the result is whitespace |
| Text.TrimStartRemovesWhitespace | core/calendar.py:82-86 | removing leading whitespace leaves a suffix that does not start with whitespace, and removes only whitespace |
| Text.TrimEndRemovesWhitespace | core/calendar.py:82-86 | removing trailing whitespace leaves a prefix that does not end with whitespace, and removes only whitespace |
| Text.StripEmptyIffAllWhitespace | core/calendar.py:82 | stripping gives "" exactly when the text is all whitespace (the case where `or "Bez tytułu"` applies) |
| Text.StripIdempotent | core/calendar.py:82-86 | stripping twice is stripping once |
| Text.StripKeepsTrimmed | core/calendar.py:82-86 | a text with no whitespace at either end is left as it is |
| LocalTime.EnsureTimezone | core/calendar.py:207-210 | a naive datetime keeps its wall clock and gets the local zone; an aware one keeps its UTC moment and is moved to the local zone |
| LocalTime.EnsureTimezoneIdempotent | core/calendar.py:207-210 | coercing an already coerced datetime changes nothing |
| LocalTime.LocalInstantMonotonic | core/calendar.py:207-210 | for aware inputs, the stored local instants compare as the UTC moments they denote, so `end < start` is decided on the real moments |
| LocalTime.DayOf | core/calendar.py:201-204 | the date of an instant is the day whose 86400 seconds (in microseconds) contain it |
| LocalTime.NormalizeToDate | core/calendar.py:201-204 | a date is returned as it is; a datetime gives the day that contains its own wall-clock reading, with no zone conversion |
| LocalTime.NormalizeToDateAgrees | core/calendar.py:201-204 | a date and any datetime on that date normalise to the same day |
| LocalTime.WeekStart | core/calendar.py:213-214 | `_week_start` is a Monday at most six days before the date |
| LocalTime.WeekStartConstantOnWeek | core/calendar.py:213-214 | every date from a Monday to the following Sunday has that Monday as week start |
| LocalTime.WeekStartSeparatesWeeks | core/calendar.py:213-214 | dates with the same week start are less than seven days apart |
| LocalTime.AsDatetime | core/calendar.py:217-222 | a datetime is coerced to the local zone; a date becomes local midnight of that date; any other value is refused (the `TypeError`) |
| LocalTime.AddMicros | core/calendar.py:177 | adding a `timedelta` keeps the datetime's zone and moves its local instant by exactly that amount (one hour for a missing DTEND) |
| Palette.ValidateColor | core/calendar.py:193-196 | a palette key is kept; anything else becomes `DEFAULT_COLOR_KEY`; the result is always a palette key |
| Palette.ValidateColorIdempotent | core/calendar.py:193-196 | validating a validated key changes nothing |
| Palette.HexOf | ui/home_view.py:239 | `COLOR_KEYS.get(key, "#3A7AFE")`: the hex code paired with the key in the presets, or the blue default for an unknown key |
| Events.NormalizeTitle | core/calendar.py:82 | the stored title is never empty: the stripped title, or "Bez tytułu" when the title is all whitespace |
| Events.NewEvent | core/calendar.py:80-87 | the event `add_event` builds carries the drawn id, a non-empty normalised title, the local instants of both datetimes, a palette colour key and the stripped description |
| Events.ApplyPatch | core/calendar.py:107-116 | each field passed is normalised as `add_event` does; every field not passed, and the id, keep their values |
| Events.NoChangesIsIdentity | core/calendar.py:107-116 | an update that passes no field leaves the event as it was |
| Events.ApplyPatchIdempotent | core/calendar.py:107-116 | applying the same update twice gives what applying it once gave |
| Ordering.Filter | core/calendar.py:132-137 | the kept elements are exactly those satisfying the condition, each as often as in the input |
| Ordering.FilterSnoc | ui/home_view.py:197-203 | the append loop keeps the filter of the prefix it has seen |
| Ordering.Sort | core/calendar.py:128 | `sorted` returns a permutation of its input in ascending key order |
| Ordering.SortIsStable | core/calendar.py:128 | for every key value, the elements with that key keep their input order (Python's sort is stable) |
| Calendar.Without | core/calendar.py:121 | the key order after `dict.pop`: exactly the other ids, still each listed once, and the same order when the id was absent |
| Calendar.CalendarStore.constructor | core/calendar.py:67-68 | a new store is empty, well formed, and has drawn no id |
| Calendar.CalendarStore.Values | core/calendar.py:128 | `self._events.values()` lists every stored event exactly once and nothing else |
| Calendar.CalendarStore.AddEvent | core/calendar.py:71-91 | on success, one event with the normalised fields is stored under an id never drawn before (not even one whose event was removed since) and appended to the insertion order; when the normalised end is before the normalised start, the events and their order are unchanged and `ValueError` is returned (the id drawn stays drawn) |
| Calendar.CalendarStore.UpdateEvent | core/calendar.py:93-118 | an unknown id gives `KeyError` and changes nothing; otherwise the stored event becomes the patched event and no other event changes; then `ValueError` is returned if the patched event ends before it starts, with the patched values still stored |
| Calendar.CalendarStore.RemoveEvent | core/calendar.py:120-121 | exactly the given id is removed from the map and the order; an absent id changes nothing |
| Calendar.RemovedIdIsNotReissued | core/calendar.py:79-121 | after adding an event, removing it and adding another, the two ids differ |
| Calendar.CalendarStore.GetEvent | core/calendar.py:124-125 | returns the event stored under the id, or `None` when the id is absent |
| Calendar.CalendarStore.AllEvents | core/calendar.py:127-128 | every stored event exactly once, ascending by start, with ties in insertion order |
| Calendar.DayListing | core/calendar.py:130-139 | sorted by start; it holds exactly the given events whose start date is the day |
| Calendar.CalendarStore.EventsForDay | core/calendar.py:130-139 | exactly the stored events whose start date is the given date, ascending by start, with ties in insertion order |
| Calendar.WeekListing | core/calendar.py:141-151 | sorted by (start, end); it holds exactly the given events whose start date lies in the seven days from the week start |
| Calendar.CalendarStore.EventsForWeek | core/calendar.py:141-151 | exactly the stored events whose start date lies in the Monday-to-Sunday week of the date, ascending by (start, end), with ties in insertion order |
| Calendar.CalendarStore.EventsForWeekByWeekStart | core/calendar.py:142-143 | the week listing depends on the date only through its Monday |
| Calendar.CalendarStore.SameWeekSameEvents | core/calendar.py:141-151 | every date of one week gives the same week listing |
| Calendar.DayWithinWeekWithinValues | core/calendar.py:130-151 | a day's listing is contained in its week's listing, which is contained in the events |
| Calendar.CalendarStore.DayWithinWeekWithinAll | core/calendar.py:127-151 | the events of a day are among those of its week, which are among all events; so the counts are ordered |
| Calendar.DecodeComponent | core/calendar.py:164-179 | a non-VEVENT or a VEVENT without DTSTART is skipped; a date value of the wrong type is the `TypeError`; otherwise the title defaults to "Wydarzenie", the description to "", and a missing DTEND to one hour after the start |
| Calendar.StepOf | core/calendar.py:164-188 | a component without a start is skipped; an unsupported date value stops the import with the `TypeError`; a draft that `add_event` refuses stops it with the `ValueError`; any other draft is added |
| Calendar.ImportSpec | core/calendar.py:162-190 | every imported draft passes the range check; with no error, one event is imported per VEVENT with a DTSTART; an error stops the import before that count is reached |
| Calendar.PlanSkip | core/calendar.py:164-173 | a skipped component adds nothing to the import |
| Calendar.PlanAccept | core/calendar.py:181-188 | an accepted component adds its draft after those already added |
| Calendar.PlanStop | core/calendar.py:175-187 | an undecodable date or a refused range ends the import with that error, keeping the drafts added before |
| Calendar.PlanDone | core/calendar.py:190 | when every component is consumed, the import succeeds with the drafts added |
| Calendar.AddsValuesStep | core/calendar.py:181-188 | each event added in the loop goes under a fresh id, and earlier events stay as they were |
| Calendar.ImportSkipStep | core/calendar.py:164-173 | a skipped component leaves the loop's progress unchanged |
| Calendar.ImportAcceptStep | core/calendar.py:181-188 | an accepted component adds its draft's event under the fresh id and appends the id, keeping the loop's progress |
| Calendar.ImportStopStep | core/calendar.py:175-187 | a component that stops the import makes the drafts accepted so far the whole import, with that error |
| Calendar.ImportKeepsOrdered | core/calendar.py:154-190 | an import keeps every stored event ending no earlier than it starts, because it adds only drafts that passed the range check |
| Calendar.CalendarStore.ImportComponent | core/calendar.py:163-188 | one pass of the loop, as `StepOf` says. A skip or an error changes nothing; an accepted draft is stored under a fresh id, which is appended to the order |
| Calendar.CalendarStore.ImportIcs | core/calendar.py:154-190 | returns the number of events added, or the error that stopped the loop. The added events, in order, are the drafts of `ImportSpec`, each under a fresh id and appended to the insertion order. Events stored before are unchanged and nothing else is added, so a failure keeps what was imported before it |
| Calendar.WellFormedSize | core/calendar.py:68 | the insertion order lists each stored id once, so it is as long as the map |
| Calendar.InsertKeepsWellFormed | core/calendar.py:90 | storing under a fresh id and appending it to the order keeps every id listed once |
| Home.UpcomingEvents | ui/home_view.py:195-204 | the events with `end >= now` and `start <= now + 7 days`, each as often as in the input, ascending by start, with ties in input order |
| Home.CollectUpcoming | ui/home_view.py:195-204 | the loop and sort compute `UpcomingEvents` |
| Home.UpcomingBoundaries | ui/home_view.py:201-202 | for an event whose end is not before its start: one ending exactly at now, or starting exactly at the horizon, is kept; one ending a microsecond earlier, or starting a microsecond later, is not |
| Home.NextCardOf | ui/home_view.py:206-221 | the placeholder texts when there is no event, otherwise the window and title of the first event |
| Home.NextCardIsEarliest | ui/home_view.py:206-214 | the card shows the placeholder exactly when no event is upcoming; otherwise it shows an upcoming event that starts no later than any other |
| Home.EntryOf | ui/home_view.py:231-240 | an entry carries the event's id, window and title, its description as tooltip when non-empty, and its colour's hex code |
| Home.UpcomingRows | ui/home_view.py:223-241 | one placeholder when there is no event; otherwise one entry per event for the first six events, in order |
| Home.PopulateUpcomingList | ui/home_view.py:223-241 | the loop over `events[:6]` builds `UpcomingRows` |
| Home.Refresh | ui/home_view.py:180-193 | the counters are the sizes of today's listing, this week's listing and all events, with today ≤ week ≤ total = number of stored events; the card and the list show the upcoming events taken from all events |
| Home.ListedEntriesAreUpcoming | ui/home_view.py:190-193 | every listed entry shows a stored event within the seven days from now |
| CalculatorView.LastRunEnd | ui/calculator_view.py:165 | where the last match of `[\d.]+` ends: after a digit or point with none later, or 0 when there is no match |
| CalculatorView.RunStart | ui/calculator_view.py:165 | where the match ending at a position starts: all digits and points, with none just before it |
| CalculatorView.LastNumber | ui/calculator_view.py:163-166 | `_get_last_number`: made only of digits and points, and empty exactly when the input has none |
| CalculatorView.LastNumberSnoc | ui/calculator_view.py:150-156 | typing a digit or point extends the last number when the input ends in one, and otherwise starts a new number |
| CalculatorView.LastSplitPart | ui/calculator_view.py:144-145 | `parts[-1]` is the last element of `current.split("/")`: a suffix with no '/', preceded by a '/' unless it is the whole text |
| CalculatorView.AfterDigit | ui/calculator_view.py:133-148 | "0" on empty gives "0"; a digit on "0" replaces it ("0" stays "0"); a digit after an operator is appended; otherwise it is appended unless it is a "0" after a "0" that follows the last '/' |
| CalculatorView.LeadingZeroRuleLooksAfterSlashOnly | ui/calculator_view.py:141-148 | a second zero after "5/" is refused, but after "5+" it is accepted, since only the text after the last '/' is checked |
| CalculatorView.AfterPoint | ui/calculator_view.py:150-156 | "." is ignored when the last number has a point; it is entered as "0." on empty input or after an operator, and as "." otherwise |
| CalculatorView.PointOncePerNumber | ui/calculator_view.py:150-156 | after an accepted ".", the last number holds exactly one point |
| CalculatorView.NewNumberAfterOperator | ui/calculator_view.py:153-154 | "0." typed where no number ends becomes the last number |
| CalculatorView.PointExtendsNumber | ui/calculator_view.py:155-156 | a point after a number without one gives it exactly one point |
| CalculatorView.PointRefusedAfterDecimalOperand | ui/calculator_view.py:151-152 | after "1.5+", "." is refused, because the last number is still "1.5" |
| CalculatorView.AfterOperator | ui/calculator_view.py:157-159 | an operator is appended exactly when the input is non-empty and ends in neither an operator nor a point; otherwise nothing changes |
| CalculatorView.AppendKeepsOperatorsApart | ui/calculator_view.py:141-159 | appending a non-operator, or an operator after a non-operator, keeps operators apart |
| CalculatorView.KeysNeverDoubleOperators | ui/calculator_view.py:133-180 | the digit, point and operator keys and backspace never put two operators next to each other |
| CalculatorView.ToggleSign | ui/calculator_view.py:102-115 | with no number, nothing changes; a '-' just before the last number is removed; otherwise '-' is inserted before the last number |
| CalculatorView.InsertKeepsLastRun | ui/calculator_view.py:110-113 | inserting a non-number character before the last number shifts that number by one |
| CalculatorView.ToggleSignTwice | ui/calculator_view.py:102-115 | "+/-" twice restores the input when the number was not preceded by '-' |
| CalculatorView.ToggleSignRemovesBinaryMinus | ui/calculator_view.py:110-111 | on "5-3" the binary minus is removed, giving "53" |
| CalculatorView.ToggleSignCanFollowOperator | ui/calculator_view.py:112-113 | on "5+3" the result is "5+-3", two operators side by side |
| CalculatorView.AfterBackspace | ui/calculator_view.py:178-180 | removes exactly the last character; on empty input it gives "" |
| CalculatorView.Evaluate | core/calculator.py:2-10 | any character outside "0123456789.+-*/() " gives "Blad"; otherwise the result of the arithmetic |
| CalculatorView.Shown | ui/calculator_view.py:168-172 | the display shows "0" for "" and for "blad", and the input itself otherwise |
| CalculatorView.CalculatorDialog.constructor | ui/calculator_view.py:69-70 | a new dialog has an empty input and shows "0" |
| CalculatorView.CalculatorDialog.UpdateDisplay | ui/calculator_view.py:168-172 | the display is brought in line with the input, which is left unchanged |
| CalculatorView.AfterEquals | ui/calculator_view.py:95-100 | "=" leaves the evaluator's result, or "" when that result is "blad" |
| CalculatorView.ErrorIsNotCleared | ui/calculator_view.py:95-100 | an expression with a disallowed character leaves "Blad" in the input and the display (the reset checks "blad"), and the next digit is appended to it |
| CalculatorView.CalculatorDialog.PressDigit | ui/calculator_view.py:133-148 | the input becomes `AfterDigit` of the old input, and the display shows it |
| CalculatorView.CalculatorDialog.PressPoint | ui/calculator_view.py:150-156 | the input becomes `AfterPoint` of the old input, and the display shows it |
| CalculatorView.CalculatorDialog.PressOperator | ui/calculator_view.py:157-159 | the input becomes `AfterOperator` of the old input, and the display shows it |
| CalculatorView.CalculatorDialog.PressToggleSign | ui/calculator_view.py:102-115 | the input becomes `ToggleSign` of the old input, and the display shows it |
| CalculatorView.CalculatorDialog.PressEquals | ui/calculator_view.py:95-100 | the display shows the evaluator's result, and the input becomes `AfterEquals` of the old input |
| CalculatorView.CalculatorDialog.GetLastNumber | ui/calculator_view.py:163-166 | returns `LastNumber` of the input |
| CalculatorView.CalculatorDialog.ClearDisplay | ui/calculator_view.py:174-176 | the input becomes "" and the display "0" |
| CalculatorView.CalculatorDialog.Backspace | ui/calculator_view.py:178-180 | the input loses its last character, and the display shows it |

## Left out

- Time zones:
  - The zone database, daylight saving time and the `dateutil` fallbacks of `_load_warsaw_timezone` are not modelled.
  - The local zone is a fixed offset of one hour, so an instant's local date is plain integer division.
- File access in `import_ics` is not modelled: the missing-file error and the reading of the file.
- iCalendar parsing is not modelled. The import takes the components as already decoded records: name, optional summary, description, DTSTART and DTEND.
- Id generation: `uuid4`'s randomness is not modelled. A fresh id is any id not in `issued`, the set of ids drawn so far.
- Ids are natural numbers rather than strings.
- `Event` is a value. `get_event` in the source returns the live stored object, which a caller could mutate; that aliasing is not modelled.
- The calculator's `%` key is not modelled. It relies on float division and float formatting.
- `Calculator.evaluate`: Python's `eval` is a foreign call.
  - It is a parameter `arith`, which also stands for the exception path that returns "Blad".
  - Only the character guard is modelled.
- Key dispatch: the `sender().text()` dispatch in `on_button_clicked` is not modelled. Each key is its own method.
- Unicode digits: the number pattern `[\d.]+` is modelled with ASCII digits only. The keys can only enter ASCII digits.
- Rendering is not modelled:
  - Qt widget construction, styling, icons and window placement.
  - The `strftime` text of the dashboard's time windows. A card or row carries the instants themselves.
  - The dashboard's counters are numbers, not their `str()` text.
- The date range limits of Python's `date` and `datetime` (years 1 to 9999) are not modelled; days and instants are unbounded integers.
- Home.Refresh: `datetime.now` is its parameter `now`.

## Behaviour modelled as the code has it

- **`update_event` is not atomic.** An all-or-nothing update would leave the event unchanged when the range check fails. The code instead assigns the passed fields to the stored event one by one, and only then checks `end < start`. So the refused values stay stored. The model follows the code: `Calendar.CalendarStore.UpdateEvent` stores the patched event before returning `ValueError`.
- **"=" never clears an error.** The calculator resets `current` only when the result is "blad", but the evaluator reports errors as "Blad". The model follows the code, and `CalculatorView.ErrorIsNotCleared` states the consequence.
