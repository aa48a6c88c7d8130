/**
 The decision logic of `chatbot`: with the free slots in hand, it ends early
 when there are none. Otherwise it shows them numbered from 1, reads a number,
 and books the chosen slot only when the number is in range.

 Reading the console, turning the typed text into a number and splitting the
 participant line at commas happen outside this model; their results arrive
 here as `selection` and `participants`.
 */
module Chatbot {
  import opened Time
  import opened Availability
  import opened Booking

  datatype Option<T> = None | Some(value: T)

  /** How the run ends. */
  datatype Outcome = NoFreeSlots | InvalidChoice | Booked(request: InsertRequest)

  /** `chatbot` lists the next seven days of the primary calendar. */
  const ListedDays: int := 7
  const PrimaryCalendar: string := "primary"

  /** The numbered listing: entry `i` shows number `i + 1` next to slot `i`. */
  function Menu(freeSlots: seq<Interval>): (menu: seq<(int, Interval)>)
    ensures |menu| == |freeSlots|
    ensures forall i :: 0 <= i < |menu| ==> menu[i].0 == i + 1
    ensures forall e :: e in menu ==> 1 <= e.0 <= |freeSlots| && freeSlots[e.0 - 1] == e.1
  {
    seq(|freeSlots|, i requires 0 <= i < |freeSlots| => (i + 1, freeSlots[i]))
  }

  /** The bounds check on a typed number; Python's negative indexing is never
      reached because the check rejects negative choices first. */
  function SelectSlot(freeSlots: seq<Interval>, selection: int): (r: Option<Interval>)
    ensures r.Some? <==> 1 <= selection <= |freeSlots|
    ensures r.Some? ==> r.value in freeSlots
  {
    var choice := selection - 1;
    if 0 <= choice < |freeSlots| then Some(freeSlots[choice]) else None
  }

  /** Typing a number picks a slot exactly when the listing shows that number
      next to that slot. */
  lemma SelectionMatchesMenu(freeSlots: seq<Interval>, selection: int, slot: Interval)
    ensures SelectSlot(freeSlots, selection) == Some(slot) <==> (selection, slot) in Menu(freeSlots)
  {
    var menu := Menu(freeSlots);
    if (selection, slot) in menu {
      var i :| 0 <= i < |menu| && menu[i] == (selection, slot);
    }
    if SelectSlot(freeSlots, selection) == Some(slot) {
      assert menu[selection - 1] == (selection, slot);
    }
  }

  /** The run from the listed free slots to its end. */
  function Respond(freeSlots: seq<Interval>, selection: int, participants: seq<string>): (r: Outcome)
    ensures r.NoFreeSlots? <==> |freeSlots| == 0
    ensures r.Booked? <==> 1 <= selection <= |freeSlots|
    ensures r.Booked? ==>
              && r.request.calendarId == PrimaryCalendar
              && BookedSlot(r.request.body) == freeSlots[selection - 1]
              && Emails(r.request.body) == participants
  {
    if |freeSlots| == 0 then NoFreeSlots
    else
      match SelectSlot(freeSlots, selection)
      case Some(slot) => Booked(BookDemo(PrimaryCalendar, slot.start, slot.end, participants))
      case None => InvalidChoice
  }

  /** A whole run: the listed events, the current instant, the typed number
      and the participants typed afterwards. */
  function Session(events: seq<CalendarEvent>, now: Instant, selection: int, participants: seq<string>): (r: Outcome)
    ensures r.NoFreeSlots? <==> |FreeSlots(BusyTimes(events), now, ListedDays)| == 0
    ensures r.Booked? <==> 1 <= selection <= |FreeSlots(BusyTimes(events), now, ListedDays)|
    ensures r.Booked? ==>
              && r.request.calendarId == PrimaryCalendar
              && BookedSlot(r.request.body) == FreeSlots(BusyTimes(events), now, ListedDays)[selection - 1]
              && BookedSlot(r.request.body) in FreeSlots(BusyTimes(events), now, ListedDays)
              && IsFree(BookedSlot(r.request.body), BusyTimes(events))
              && Emails(r.request.body) == participants
  {
    Respond(FreeSlots(BusyTimes(events), now, ListedDays), selection, participants)
  }

  /** A run that books something books a 30-minute template slot within the
      next seven day offsets that overlaps no timed event among the listed events, with
      the typed participants as attendees. */
  lemma SessionBooksFreeSlot(events: seq<CalendarEvent>, now: Instant, selection: int, participants: seq<string>)
    requires Session(events, now, selection, participants).Booked?
    ensures var body := Session(events, now, selection, participants).request.body;
            && (forall n :: 0 <= n < |events| && IsTimed(events[n]) ==> !Overlaps(BookedSlot(body), Span(events[n])))
            && BookedSlot(body).end == BookedSlot(body).start + SlotLength
            && (exists d, i :: 0 <= d < ListedDays && 0 <= i < SlotsPerDay && BookedSlot(body) == TemplateSlot(now, d, i))
            && Emails(body) == participants
            && FollowsPolicy(body)
  {
    var busy := BusyTimes(events);
    var free := FreeSlots(busy, now, ListedDays);
    var slot := free[selection - 1];
    FreeSlotsSound(busy, now, ListedDays, slot);
    forall n | 0 <= n < |events| && IsTimed(events[n])
      ensures !Overlaps(slot, Span(events[n]))
    {
      BusyTimesMembership(events, Span(events[n]));
    }
  }

  /** A run books exactly when the number typed is one the listing shows; with
      an empty calendar the listing always has all 28 slots. */
  lemma SessionBooksIff(events: seq<CalendarEvent>, now: Instant, selection: int, participants: seq<string>)
    ensures Session(events, now, selection, participants).Booked?
        <==> 1 <= selection <= |FreeSlots(BusyTimes(events), now, ListedDays)|
    ensures |events| == 0 ==>
              (Session(events, now, selection, participants).Booked? <==> 1 <= selection <= 28)
  {
    FreeSlotsCount(BusyTimes(events), now, ListedDays);
  }
}
