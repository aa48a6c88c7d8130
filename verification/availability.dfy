/**
 The availability engine of `get_free_slots`.

 It runs in three steps. The listed calendar events are first reduced to busy
 intervals, keeping only events whose two ends carry a timestamp. Then a fixed
 daily template is enumerated: four consecutive 30-minute slots from 18:00 IRST,
 for each of `days` day offsets. Last, a slot is kept when it overlaps no busy
 interval in the half-open sense.

 The functions here are the reference definitions; the methods follow the
 source's loops and are proved to compute them.
 */
module Availability {
  import opened Time

  /** One end of a listed event: a timestamp (`dateTime`), or only a date for
      an all-day event (or any other end that carries no `dateTime`). */
  datatype EventTime = DateTime(instant: Instant) | DateOnly(date: int)

  /** A listed calendar event; only its two ends matter to the engine. */
  datatype CalendarEvent = CalendarEvent(start: EventTime, end: EventTime)

  /** Both ends carry a timestamp. */
  predicate IsTimed(e: CalendarEvent)
  {
    e.start.DateTime? && e.end.DateTime?
  }

  function Span(e: CalendarEvent): Interval
    requires IsTimed(e)
  {
    Interval(e.start.instant, e.end.instant)
  }

  /** The busy intervals of `events`: the span of each timed event, in input
      order. Events without a timestamp on both ends are dropped. */
  function BusyTimes(events: seq<CalendarEvent>): (busy: seq<Interval>)
    ensures |busy| <= |events|
  {
    if |events| == 0 then []
    else
      var last := events[|events| - 1];
      BusyTimes(events[..|events| - 1]) + (if IsTimed(last) then [Span(last)] else [])
  }

  /** The daily template: `SlotsPerDay` consecutive slots of `SlotLength`,
      the first starting at `WindowStartHour`:00 IRST. */
  const SlotsPerDay: int := 4
  const SlotLength: int := 1_800_000_000   // 30 minutes
  const WindowStartHour: nat := 18

  /** `range(days)` is empty for a negative `days`. */
  function DayCount(days: int): nat
  {
    if days < 0 then 0 else days
  }

  /** The start of the window on day offset `day`: move `now` forward `day`
      days, read it on the IRST clock and set the time to 18:00. */
  function DayStart(now: Instant, day: int): (r: Instant)
    ensures LocalDate(r) == LocalDate(now) + day
    ensures TimeOfDay(r) == WindowStartHour * Hour
  {
    ShiftByDays(now, day);
    ReplaceTimeOfDay(now + day * Day, WindowStartHour, 0)
  }

  /** Slot number `i` of day offset `day`. */
  function TemplateSlot(now: Instant, day: int, i: int): Interval
  {
    var start := DayStart(now, day) + i * SlotLength;
    Interval(start, start + SlotLength)
  }

  /** The slots of day offset `day`, by index. */
  function DaySlots(now: Instant, day: int): seq<Interval>
  {
    seq(SlotsPerDay, i => TemplateSlot(now, day, i))
  }

  /** Every slot of the template, day-major then slot-index-minor. */
  function TemplateSlots(now: Instant, days: int): (slots: seq<Interval>)
    ensures |slots| == SlotsPerDay * DayCount(days)
  {
    if days <= 0 then [] else TemplateSlots(now, days - 1) + DaySlots(now, days - 1)
  }

  /** `slot` overlaps no busy interval. */
  predicate IsFree(slot: Interval, busy: seq<Interval>)
  {
    forall b :: b in busy ==> !Overlaps(slot, b)
  }

  /** The candidates that are free, in their original order. */
  function KeepFree(candidates: seq<Interval>, busy: seq<Interval>): (free: seq<Interval>)
    ensures |free| <= |candidates|
    ensures forall x {:trigger x in free} :: x in free <==> x in candidates && IsFree(x, busy)
  {
    if |candidates| == 0 then []
    else
      var last := candidates[|candidates| - 1];
      KeepFree(candidates[..|candidates| - 1], busy) + (if IsFree(last, busy) then [last] else [])
  }

  /** The result of `get_free_slots` for the given busy intervals. */
  function FreeSlots(busy: seq<Interval>, now: Instant, days: int): seq<Interval>
  {
    KeepFree(TemplateSlots(now, days), busy)
  }

  /** Each interval ends no later than the next one starts. */
  predicate Chronological(s: seq<Interval>)
  {
    forall j, k :: 0 <= j < k < |s| ==> s[j].end <= s[k].start
  }

  /** Position `SlotsPerDay * day + i` of the template is slot `i` of day `day`. */
  lemma {:induction false} TemplateSlotAt(now: Instant, days: int, day: int, i: int)
    requires 0 <= day < DayCount(days) && 0 <= i < SlotsPerDay
    ensures SlotsPerDay * day + i < |TemplateSlots(now, days)|
    ensures TemplateSlots(now, days)[SlotsPerDay * day + i] == TemplateSlot(now, day, i)
  {
    if day < days - 1 {
      TemplateSlotAt(now, days - 1, day, i);
    }
  }

  /** Each position of the template holds the slot its day and index name. */
  lemma SlotAtPosition(now: Instant, days: int, k: int)
    requires 0 <= k < |TemplateSlots(now, days)|
    ensures 0 <= k / SlotsPerDay < DayCount(days)
    ensures TemplateSlots(now, days)[k] == TemplateSlot(now, k / SlotsPerDay, k % SlotsPerDay)
  {
  }

  /** Appending a candidate appends it to the result when it is free. */
  lemma KeepFreeSnoc(candidates: seq<Interval>, x: Interval, busy: seq<Interval>)
    ensures KeepFree(candidates + [x], busy) == KeepFree(candidates, busy) + (if IsFree(x, busy) then [x] else [])
  {
    assert (candidates + [x])[..|candidates|] == candidates;
  }

  /** Scanning one more slot of a day appends it when it is free. */
  lemma DayPrefixStep(now: Instant, day: int, i: int, busy: seq<Interval>)
    requires 0 <= i < SlotsPerDay
    ensures KeepFree(DaySlots(now, day)[..i + 1], busy)
         == KeepFree(DaySlots(now, day)[..i], busy)
          + (if IsFree(TemplateSlot(now, day, i), busy) then [TemplateSlot(now, day, i)] else [])
  {
    var daySlots := DaySlots(now, day);
    assert daySlots[..i + 1] == daySlots[..i] + [daySlots[i]];
    KeepFreeSnoc(daySlots[..i], daySlots[i], busy);
  }

  /** Filtering a concatenation filters each part. */
  lemma {:induction false} KeepFreeConcat(a: seq<Interval>, c: seq<Interval>, busy: seq<Interval>)
    ensures KeepFree(a + c, busy) == KeepFree(a, busy) + KeepFree(c, busy)
  {
    if |c| == 0 {
      assert a + c == a;
    } else {
      var init := c[..|c| - 1];
      var last := c[|c| - 1];
      var step := if IsFree(last, busy) then [last] else [];
      assert a + c == (a + init) + [last];
      assert c == init + [last];
      calc {
        KeepFree(a + c, busy);
        { KeepFreeSnoc(a + init, last, busy); }
        KeepFree(a + init, busy) + step;
        { KeepFreeConcat(a, init, busy); }
        (KeepFree(a, busy) + KeepFree(init, busy)) + step;
        KeepFree(a, busy) + (KeepFree(init, busy) + step);
        { KeepFreeSnoc(init, last, busy); }
        KeepFree(a, busy) + KeepFree(c, busy);
      }
    }
  }

  // ---------------------------------------------------------------------------
  // The source's loops

  /** The loop that collects busy times. */
  method CollectBusyTimes(events: seq<CalendarEvent>) returns (busy: seq<Interval>)
    ensures busy == BusyTimes(events)
  {
    busy := [];
    for n := 0 to |events|
      invariant busy == BusyTimes(events[..n])
    {
      assert events[..n + 1][..n] == events[..n];
      var event := events[n];
      if event.start.DateTime? && event.end.DateTime? {
        busy := busy + [Interval(event.start.instant, event.end.instant)];
      }
    }
    assert events[..|events|] == events;
  }

  /** The conflict scan of one slot, which stops at the first overlap. */
  method SlotConflicts(slot: Interval, busy: seq<Interval>) returns (conflict: bool)
    ensures conflict <==> !IsFree(slot, busy)
  {
    conflict := false;
    var n := 0;
    while n < |busy|
      invariant 0 <= n <= |busy|
      invariant forall m :: 0 <= m < n ==> !Overlaps(slot, busy[m])
    {
      if slot.start < busy[n].end && slot.end > busy[n].start {
        assert busy[n] in busy;
        conflict := true;
        break;
      }
      n := n + 1;
    }
    if !conflict {
      forall b | b in busy
        ensures !Overlaps(slot, b)
      {
        var m :| 0 <= m < |busy| && busy[m] == b;
      }
    }
  }

  /** The body of the day loop: the four slots of day offset `day`, each kept
      when the conflict scan finds no overlap. */
  method FreeSlotsOfDay(now: Instant, day: int, busy: seq<Interval>) returns (dayFree: seq<Interval>)
    ensures dayFree == KeepFree(DaySlots(now, day), busy)
  {
    var dayStart := DayStart(now, day);
    ghost var daySlots := DaySlots(now, day);
    dayFree := [];
    var i := 0;
    while i < SlotsPerDay
      invariant 0 <= i <= SlotsPerDay
      invariant dayFree == KeepFree(daySlots[..i], busy)
    {
      var slotStart := dayStart + i * SlotLength;
      var slotEnd := slotStart + SlotLength;
      var conflict := SlotConflicts(Interval(slotStart, slotEnd), busy);
      DayPrefixStep(now, day, i, busy);
      if !conflict {
        dayFree := dayFree + [Interval(slotStart, slotEnd)];
      }
      i := i + 1;
    }
    assert daySlots[..SlotsPerDay] == daySlots;
  }

  /** `get_free_slots` once the events have been listed. */
  method GetFreeSlots(events: seq<CalendarEvent>, now: Instant, days: int) returns (freeSlots: seq<Interval>)
    ensures freeSlots == FreeSlots(BusyTimes(events), now, days)
  {
    var busy := CollectBusyTimes(events);
    freeSlots := [];
    var day := 0;
    while day < days
      invariant 0 <= day <= DayCount(days)
      invariant freeSlots == KeepFree(TemplateSlots(now, day), busy)
    {
      var dayFree := FreeSlotsOfDay(now, day, busy);
      KeepFreeConcat(TemplateSlots(now, day), DaySlots(now, day), busy);
      freeSlots := freeSlots + dayFree;
      day := day + 1;
    }
  }

  // ---------------------------------------------------------------------------
  // Busy intervals

  /** An interval is busy exactly when some timed event spans it. */
  lemma {:induction false} BusyTimesMembership(events: seq<CalendarEvent>, b: Interval)
    ensures b in BusyTimes(events)
        <==> exists n :: 0 <= n < |events| && IsTimed(events[n]) && Span(events[n]) == b
  {
    if |events| > 0 {
      var init := events[..|events| - 1];
      BusyTimesMembership(init, b);
      assert forall n :: 0 <= n < |init| ==> init[n] == events[n];
    }
  }

  /** Busy times of a concatenation are the concatenated busy times: the
      collection keeps input order and looks at each event on its own. */
  lemma {:induction false} BusyTimesConcat(a: seq<CalendarEvent>, c: seq<CalendarEvent>)
    ensures BusyTimes(a + c) == BusyTimes(a) + BusyTimes(c)
  {
    if |c| == 0 {
      assert a + c == a;
    } else {
      var init := c[..|c| - 1];
      BusyTimesConcat(a, init);
      assert (a + c)[..|a + c| - 1] == a + init;
    }
  }

  /** When every event is timed, the busy times are their spans, one for one. */
  lemma {:induction false} BusyTimesAllTimed(events: seq<CalendarEvent>)
    requires forall n :: 0 <= n < |events| ==> IsTimed(events[n])
    ensures |BusyTimes(events)| == |events|
    ensures forall n :: 0 <= n < |events| ==> BusyTimes(events)[n] == Span(events[n])
  {
    if |events| > 0 {
      var init := events[..|events| - 1];
      BusyTimesAllTimed(init);
    }
  }

  /** Events without a timestamp on both ends never make anything busy. */
  lemma {:induction false} BusyTimesNoneTimed(events: seq<CalendarEvent>)
    requires forall n :: 0 <= n < |events| ==> !IsTimed(events[n])
    ensures BusyTimes(events) == []
  {
    if |events| > 0 {
      BusyTimesNoneTimed(events[..|events| - 1]);
    }
  }

  // ---------------------------------------------------------------------------
  // Filtering

  /** A candidate survives exactly when it is free. */
  lemma KeepFreeMembership(candidates: seq<Interval>, busy: seq<Interval>, x: Interval)
    ensures x in KeepFree(candidates, busy) <==> x in candidates && IsFree(x, busy)
  {
  }

  /** With nothing busy, every candidate survives. */
  lemma {:induction false} KeepFreeNoBusy(candidates: seq<Interval>)
    ensures KeepFree(candidates, []) == candidates
  {
    if |candidates| > 0 {
      KeepFreeNoBusy(candidates[..|candidates| - 1]);
      assert candidates == candidates[..|candidates| - 1] + [candidates[|candidates| - 1]];
    }
  }

  /** Filtering keeps chronological order. */
  lemma {:induction false} KeepFreeChronological(candidates: seq<Interval>, busy: seq<Interval>)
    requires Chronological(candidates)
    ensures Chronological(KeepFree(candidates, busy))
  {
    if |candidates| > 0 {
      var init := candidates[..|candidates| - 1];
      var last := candidates[|candidates| - 1];
      KeepFreeChronological(init, busy);
      var kept := KeepFree(init, busy);
      forall x | x in kept
        ensures x.end <= last.start
      {
        KeepFreeMembership(init, busy, x);
      }
    }
  }

  // ---------------------------------------------------------------------------
  // The template

  /** Day offset `day` opens at 18:00 IRST on the date `day` days after the
      date of `now`. */
  lemma DayStartOnDate(now: Instant, day: int)
    ensures DayStart(now, day) == (LocalDate(now) + day) * Day + WindowStartHour * Hour - IrstOffset
  {
  }

  /** A slot ends no later than any slot after it (by day, then index) starts. */
  lemma TemplateSlotBefore(now: Instant, d1: int, i1: int, d2: int, i2: int)
    requires 0 <= i1 < SlotsPerDay && 0 <= i2 < SlotsPerDay
    requires d1 < d2 || (d1 == d2 && i1 < i2)
    ensures TemplateSlot(now, d1, i1).end <= TemplateSlot(now, d2, i2).start
  {
  }

  /** The template is chronological. */
  lemma TemplateChronological(now: Instant, days: int)
    ensures Chronological(TemplateSlots(now, days))
  {
    var slots := TemplateSlots(now, days);
    forall j, k | 0 <= j < k < |slots|
      ensures slots[j].end <= slots[k].start
    {
      SlotAtPosition(now, days, j);
      SlotAtPosition(now, days, k);
      TemplateSlotBefore(now, j / SlotsPerDay, j % SlotsPerDay, k / SlotsPerDay, k % SlotsPerDay);
    }
  }

  /** Touching ends never conflict; a busy interval equal to a slot does. */
  lemma HalfOpenBoundaries(slot: Interval, x: Instant)
    requires slot.start < slot.end
    ensures IsFree(slot, [Interval(x, slot.start)])
    ensures IsFree(slot, [Interval(slot.end, x)])
    ensures !IsFree(slot, [slot])
  {
    assert slot in [slot];
  }

  // ---------------------------------------------------------------------------
  // The free slots

  /** Soundness: every returned slot overlaps no busy interval and is a slot
      of the template, 30 minutes long, on one of the `days` day offsets. */
  lemma FreeSlotsSound(busy: seq<Interval>, now: Instant, days: int, s: Interval)
    requires s in FreeSlots(busy, now, days)
    ensures forall b :: b in busy ==> !(s.start < b.end && s.end > b.start)
    ensures s.end == s.start + SlotLength
    ensures exists d, i :: 0 <= d < DayCount(days) && 0 <= i < SlotsPerDay && s == TemplateSlot(now, d, i)
  {
    var slots := TemplateSlots(now, days);
    KeepFreeMembership(slots, busy, s);
    var k :| 0 <= k < |slots| && slots[k] == s;
    SlotAtPosition(now, days, k);
  }

  /** A slot of the template is returned if and only if it is free. */
  lemma FreeSlotsComplete(busy: seq<Interval>, now: Instant, days: int, d: int, i: int)
    requires 0 <= d < DayCount(days) && 0 <= i < SlotsPerDay
    ensures TemplateSlot(now, d, i) in FreeSlots(busy, now, days) <==> IsFree(TemplateSlot(now, d, i), busy)
  {
    TemplateSlotAt(now, days, d, i);
    KeepFreeMembership(TemplateSlots(now, days), busy, TemplateSlot(now, d, i));
  }

  /** The result is strictly chronological: each slot ends before or when the
      next starts, so indexing it follows day-major, slot-index-minor order. */
  lemma FreeSlotsOrdered(busy: seq<Interval>, now: Instant, days: int)
    ensures Chronological(FreeSlots(busy, now, days))
    ensures forall j, k :: 0 <= j < k < |FreeSlots(busy, now, days)| ==>
              FreeSlots(busy, now, days)[j].start < FreeSlots(busy, now, days)[k].start
  {
    var free := FreeSlots(busy, now, days);
    TemplateChronological(now, days);
    KeepFreeChronological(TemplateSlots(now, days), busy);
    forall j | 0 <= j < |free|
      ensures free[j].start < free[j].end
    {
      FreeSlotsSound(busy, now, days, free[j]);
    }
  }

  /** At most four slots per day; with nothing busy, the whole template. */
  lemma FreeSlotsCount(busy: seq<Interval>, now: Instant, days: int)
    ensures |FreeSlots(busy, now, days)| <= SlotsPerDay * DayCount(days)
    ensures |busy| == 0 ==> FreeSlots(busy, now, days) == TemplateSlots(now, days)
    ensures |busy| == 0 ==> |FreeSlots(busy, now, days)| == SlotsPerDay * DayCount(days)
  {
    if |busy| == 0 {
      assert busy == [];
      KeepFreeNoBusy(TemplateSlots(now, days));
    }
  }

  // ---------------------------------------------------------------------------
  // Worked scenarios, on day 1970-01-01 (the epoch is 03:30 IRST that day)

  /** On 1970-01-01, 18:00 IRST is 14:30 UTC. */
  lemma EpochDayStart()
    ensures DayStart(0, 0) == 52_200_000_000
  {
  }

  /** One day of template: the four slots from the day's 18:00, back to back. */
  lemma OneDayTemplate(now: Instant)
    ensures var s := DayStart(now, 0);
            TemplateSlots(now, 1) == [
              Interval(s, s + SlotLength), Interval(s + SlotLength, s + 2 * SlotLength),
              Interval(s + 2 * SlotLength, s + 3 * SlotLength), Interval(s + 3 * SlotLength, s + 4 * SlotLength)]
  {
  }

  /** Filtering four candidates, one at a time. */
  lemma KeepFreeFour(a: Interval, b: Interval, c: Interval, d: Interval, busy: seq<Interval>)
    ensures KeepFree([a, b, c, d], busy)
         == (if IsFree(a, busy) then [a] else []) + (if IsFree(b, busy) then [b] else [])
          + (if IsFree(c, busy) then [c] else []) + (if IsFree(d, busy) then [d] else [])
  {
    KeepFreeSnoc([], a, busy);
    KeepFreeSnoc([a], b, busy);
    KeepFreeSnoc([a, b], c, busy);
    KeepFreeSnoc([a, b, c], d, busy);
    assert [a] == [] + [a];
    assert [a, b] == [a] + [b];
    assert [a, b, c] == [a, b] + [c];
    assert [a, b, c, d] == [a, b, c] + [d];
  }

  /** Nothing busy, one day: 18:00-18:30, 18:30-19:00, 19:00-19:30, 19:30-20:00 IRST. */
  lemma ScenarioNothingBusy()
    ensures FreeSlots([], 0, 1) == [
              Interval(52_200_000_000, 54_000_000_000), Interval(54_000_000_000, 55_800_000_000),
              Interval(55_800_000_000, 57_600_000_000), Interval(57_600_000_000, 59_400_000_000)]
  {
    FreeSlotsCount([], 0, 1);
    EpochDayStart();
    OneDayTemplate(0);
  }

  /** Busy 18:30-19:15 IRST removes the two middle slots only. */
  lemma ScenarioOneMeeting()
    ensures FreeSlots([Interval(54_000_000_000, 56_700_000_000)], 0, 1) == [
              Interval(52_200_000_000, 54_000_000_000), Interval(57_600_000_000, 59_400_000_000)]
  {
    var busy := [Interval(54_000_000_000, 56_700_000_000)];
    var slots := TemplateSlots(0, 1);
    EpochDayStart();
    OneDayTemplate(0);
    assert slots == [
      Interval(52_200_000_000, 54_000_000_000), Interval(54_000_000_000, 55_800_000_000),
      Interval(55_800_000_000, 57_600_000_000), Interval(57_600_000_000, 59_400_000_000)];
    assert busy[0] in busy;
    assert IsFree(slots[0], busy) && !IsFree(slots[1], busy);
    assert !IsFree(slots[2], busy) && IsFree(slots[3], busy);
    KeepFreeFour(slots[0], slots[1], slots[2], slots[3], busy);
  }
}
