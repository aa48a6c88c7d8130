# Demo booking bot: availability engine and booking payload

This project models the logic of a command-line bot that books demo meetings
in a Google Calendar, and proves properties of that model. There are three pieces:

- **The availability engine (`get_free_slots`).** It reduces the listed calendar
  events to busy intervals, keeping only events whose start and end both carry a
  `dateTime`. It then enumerates four consecutive 30-minute slots from 18:00
  Iran Standard Time (IRST, the fixed offset UTC+3:30) on each of `days` day
  offsets. It keeps a slot when no busy interval overlaps it in the half-open
  sense.
- **The booking payload (`book_demo`).** This is the event record sent to the
  calendar's insert call. It holds the chosen slot, one attendee per participant,
  a Meet conference request and two 30-minute reminder overrides.
- **The selection step of `chatbot`.** It stops when there are no free slots. It
  books only when the typed 1-based number is in range.

Instants are integers counting microseconds since the Unix epoch. Converting a
datetime to IRST keeps its instant; only the calendar date and time of day it is
read as change. So `LocalDate` and `TimeOfDay` carry the fixed offset, and
"day offset `d` at 18:00" is `(LocalDate(now) + d) * Day + 18 * Hour - IrstOffset`.

Modules:

- `Time` (`time.dfy`): instants, the IRST wall clock, intervals and the
  half-open overlap test.
- `Availability` (`availability.dfy`): the reference definitions `BusyTimes`,
  `TemplateSlots`, `KeepFree` and `FreeSlots`; methods that follow the source's
  loops and are proved to compute them; and the soundness, completeness,
  ordering and count lemmas.
- `Booking` (`booking.dfy`): the event payload.
- `Chatbot` (`chatbot.dfy`): the numbered listing, the bounds check and a whole
  run from the listed events to the booked request.

## Model

| member | source | states |
|---|---|---|
| Time.ReplaceTimeOfDay | BookingApp.py:59 | `replace(hour, minute, second=0, microsecond=0)` on the IRST clock keeps the IRST date and sets the time of day to exactly hour:minute |
| Time.ShiftByDays | BookingApp.py:59 | adding `d` whole days moves the IRST date by exactly `d` and keeps the time of day, because the offset is fixed (line 29) |
| Availability.BusyTimes | BookingApp.py:47-54 | at most one busy interval per listed event |
| Availability.CollectBusyTimes | BookingApp.py:47-54 | the loop over events computes exactly `BusyTimes`: the spans of the events with a `dateTime` on both ends |
| Availability.BusyTimesMembership | BookingApp.py:48-54 | an interval is busy if and only if some event with timestamps on both ends spans exactly it |
| Availability.BusyTimesConcat | BookingApp.py:48-54 | the collection keeps input order and treats each event on its own: busy times of `a + c` are busy times of `a` followed by those of `c` |
| Availability.BusyTimesAllTimed | BookingApp.py:48-54 | when every event is timed, busy interval `n` is the span of event `n` |
| Availability.BusyTimesNoneTimed | BookingApp.py:49-51 | all-day (date-only) events are silently dropped: a list of them yields no busy interval |
| Availability.DayStart | BookingApp.py:59 | day offset `d` opens on the IRST date `d` days after the date of `now`, at 18:00 IRST |
| Availability.DayStartOnDate | BookingApp.py:59 | day offset `d` opens at `(LocalDate(now) + d) * Day + 18h - 3h30` |
| Availability.TemplateSlots | BookingApp.py:58-60 | the enumeration has exactly four slots per day offset, `4*days` in all (none for `days <= 0`, as `range` gives) |
| Availability.OneDayTemplate | BookingApp.py:59-62 | one day's slots are four back-to-back 30-minute slots from that day's 18:00 |
| Availability.SlotAtPosition | BookingApp.py:58-62 | position `k` of the enumeration is slot `k mod 4` of day offset `k div 4`, and that day offset is below `days` |
| Availability.TemplateSlotAt | BookingApp.py:58-62 | position `4*d + i` of the enumeration is slot `i` of day `d`, starting `30*i` minutes after 18:00 and lasting 30 minutes |
| Availability.TemplateSlotBefore | BookingApp.py:58-62 | a slot ends no later than any slot later in day-major, index-minor order starts |
| Availability.TemplateChronological | BookingApp.py:58-62 | the template enumeration is chronological |
| Availability.SlotConflicts | BookingApp.py:64-69 | the scan that stops at the first overlap reports a conflict if and only if some busy interval overlaps the slot |
| Availability.HalfOpenBoundaries | BookingApp.py:67 | a busy interval ending at the slot's start or starting at its end does not conflict; one equal to the slot does |
| Availability.KeepFree | BookingApp.py:64-72 | a candidate is in the result if and only if it is a candidate that overlaps no busy interval; the result is never longer than the candidates |
| Availability.KeepFreeConcat | BookingApp.py:58-72 | filtering the days one after another gives the same slots as filtering the whole enumeration |
| Availability.DayPrefixStep | BookingApp.py:60-72 | scanning slot `i` of a day appends that slot exactly when it is free |
| Availability.KeepFreeMembership | BookingApp.py:64-72 | a candidate is kept if and only if it conflicts with no busy interval |
| Availability.KeepFreeNoBusy | BookingApp.py:64-72 | with no busy intervals, every candidate is kept, in order |
| Availability.KeepFreeChronological | BookingApp.py:71-72 | appending the kept slots in enumeration order preserves chronological order |
| Availability.FreeSlotsOfDay | BookingApp.py:59-72 | one pass of the day loop keeps exactly that day's free slots, in index order |
| Availability.GetFreeSlots | BookingApp.py:46-74 | the busy-time loop followed by the day loop (its body is `FreeSlotsOfDay`) computes exactly `FreeSlots(BusyTimes(events), now, days)` |
| Availability.FreeSlotsSound | BookingApp.py:58-72 | every returned slot overlaps no busy interval, lasts 30 minutes and is slot `i < 4` of a day offset `d < days` |
| Availability.FreeSlotsComplete | BookingApp.py:58-72 | a template slot is returned if and only if it conflicts with no busy interval |
| Availability.FreeSlotsOrdered | BookingApp.py:58-72 | the result is strictly chronological: each slot ends by the time the next starts, and starts strictly increase |
| Availability.FreeSlotsCount | BookingApp.py:58-72 | at most `4*days` slots; with no busy intervals, exactly the `4*days` template slots |
| Availability.ScenarioNothingBusy | BookingApp.py:56-74 | one day and no busy interval give 18:00-18:30, 18:30-19:00, 19:00-19:30 and 19:30-20:00 IRST |
| Availability.ScenarioOneMeeting | BookingApp.py:56-74 | a meeting from 18:30 to 19:15 IRST leaves only 18:00-18:30 and 19:30-20:00 |
| Booking.BookDemo | BookingApp.py:78-100 | the payload occupies exactly [start, end), has one attendee per participant in order, uses zone Asia/Tehran, sets `useDefault` false, has an email and a popup override of 30 minutes each, and requests `hangoutsMeet` |
| Booking.BookDemoInjective | BookingApp.py:78-97 | two payloads are equal if and only if their slots and participant lists are equal |
| Chatbot.Menu | BookingApp.py:114-115 | the listing has one entry per free slot, entry `i` shows the number `i + 1`, and every entry shows a number `n` from 1 to `len(free_slots)` next to `free_slots[n-1]`; so every free slot is listed, in order |
| Chatbot.SelectSlot | BookingApp.py:117-119 | a typed number `n` selects a slot if and only if `1 <= n <= len(free_slots)`, and the selected slot is one of the free slots |
| Chatbot.SelectionMatchesMenu | BookingApp.py:114-119 | typing `n` selects slot `s` if and only if the listing shows `n` next to `s` |
| Chatbot.Respond | BookingApp.py:108-131 | a run with no free slots ends without booking; otherwise it books `free_slots[n-1]` on the primary calendar with the typed participants if and only if `n` is in range |
| Chatbot.Session | BookingApp.py:105-131 | a whole run over seven days of the primary calendar ends at the no-free-slots message exactly when no slot is free; it books if and only if `1 <= n <= len(free_slots)`, and then books `free_slots[n-1]` on `primary`, a returned slot that overlaps no busy interval, with the typed participants |
| Chatbot.SessionBooksFreeSlot | BookingApp.py:103-127 | a booked slot is a 30-minute template slot within the next seven day offsets, overlaps no timed event among the listed events, and carries the fixed reminder and conference policy |
| Chatbot.SessionBooksIff | BookingApp.py:106-131 | a run books if and only if the typed number is listed; with an empty calendar, exactly 1 to 28 are listed |

## Left out

These are facts about the code that the model keeps as they are:

- Busy intervals are not validated: an interval with `start >= end` is processed like any other.
- An empty participant list is not rejected.
- Attendees are sent as an ordered list, not a set.
- The template (18:00, four slots, 30 minutes) is fixed, not configurable.

What the model leaves out:

- OAuth credentials and the pickled token cache (BookingApp.py:10-24) are left out: file I/O and foreign library calls.
- The calendar `list` and `insert` calls and `.execute()` (BookingApp.py:37-44, 98-101) are left out because they are network calls. The listed events are an input sequence. The model ends at the insert request it would send.
- The query window `timeMin = now`, `timeMax = now + days` (BookingApp.py:32-34) is left out. It only shapes the network request. The model takes whatever events are listed.
- Only the events the listing returns are checked: the source reads the first result page of the window from `now` to `now + days` (BookingApp.py:37-44). So a day-0 slot already in the past may overlap an event that was never listed.
- `datetime.now()` is left out; the current instant is a parameter.
- ISO timestamp parsing and formatting are left out. Timestamps are integer instants.
- `strftime` in the listing is left out.
- Listed events are assumed to always carry both `start` and `end`. An item missing either key makes `event['start']` or `event['end']` (BookingApp.py:49-50) raise `KeyError`, and that path is not modelled.
- Any `dateTime` the source would treat as absent, such as an empty string, is modelled as `DateOnly`.
- Console printing and `input` are left out (BookingApp.py:109-131).
- `int()` parsing of the typed number and its `ValueError` on non-numeric text are left out.
- The comma split of the participant line is left out. Its result arrives as a list of strings.
- Printing the created event's `id` and `hangoutLink` is left out.
- The constant `requestId` (BookingApp.py:86) is kept as a field value. Nothing is claimed about its uniqueness.
- Slots on day offset 0 that already lie in the past are returned, as in the source.
- Availability.BusyTimes: its own contract only bounds the count. The exact content and order are stated by `BusyTimesMembership`, `BusyTimesConcat`, `BusyTimesAllTimed` and `BusyTimesNoneTimed`.
- Chatbot.SelectSlot: its own contract says the selected slot is one of the free slots. That it is `free_slots[n-1]` is stated by `SelectionMatchesMenu` and `Respond`.
- Python datetimes are limited to years 1 to 9999. Instants here are unbounded integers, so the `OverflowError` near those limits is not modelled.
