/**
 The event payload that `book_demo` hands to the calendar service's insert
 call. Building it is a plain record construction: the chosen slot and the
 participants are copied in, and every other field is a fixed policy value.
 The insert call itself belongs to the calendar service, so the model ends at
 the request it would be sent.
 */
module Booking {
  import opened Time

  /** A reminder channel. */
  datatype ReminderMethod = Email | Popup

  /** One reminder: a channel and how many minutes before the start it fires. */
  datatype ReminderOverride = ReminderOverride(channel: ReminderMethod, minutes: nat)

  datatype Reminders = Reminders(useDefault: bool, overrides: seq<ReminderOverride>)

  /** An event end: the instant (sent as an ISO timestamp in IRST) and a zone name. */
  datatype EventDateTime = EventDateTime(dateTime: Instant, timeZone: string)

  datatype Attendee = Attendee(email: string)

  /** The conferencing create request: a request token and the solution type. */
  datatype ConferenceCreateRequest = ConferenceCreateRequest(requestId: string, solutionType: string)

  /** The event body. */
  datatype EventBody = EventBody(
    summary: string,
    description: string,
    start: EventDateTime,
    end: EventDateTime,
    attendees: seq<Attendee>,
    conferenceData: ConferenceCreateRequest,
    reminders: Reminders)

  /** The insert call's arguments. */
  datatype InsertRequest = InsertRequest(
    calendarId: string,
    body: EventBody,
    conferenceDataVersion: nat,
    sendUpdates: string)

  const Summary: string := "ITvisa Meeting"
  const Description: string := "We are looking forward to show the demo!"
  const TimeZoneName: string := "Asia/Tehran"
  const RequestId: string := "random-string"
  const MeetSolution: string := "hangoutsMeet"
  const ReminderLeadMinutes: nat := 30

  /** The slot an event body occupies. */
  function BookedSlot(body: EventBody): Interval
  {
    Interval(body.start.dateTime, body.end.dateTime)
  }

  /** The attendee addresses of an event body, in order. */
  function Emails(body: EventBody): seq<string>
  {
    seq(|body.attendees|, k requires 0 <= k < |body.attendees| => body.attendees[k].email)
  }

  /** The notification policy every booking follows: no default reminders,
      exactly one email and one popup reminder, each 30 minutes ahead, and a
      Meet conference requested. */
  predicate FollowsPolicy(body: EventBody)
  {
    && !body.reminders.useDefault
    && |body.reminders.overrides| == 2
    && body.reminders.overrides[0].channel == Email
    && body.reminders.overrides[1].channel == Popup
    && (forall o :: o in body.reminders.overrides ==> o.minutes == ReminderLeadMinutes)
    && body.conferenceData.solutionType == MeetSolution
  }

  /** `book_demo`'s payload for a slot [start, end) and a participant list. */
  function BookDemo(calendarId: string, start: Instant, end: Instant, participants: seq<string>): (r: InsertRequest)
    ensures r.calendarId == calendarId
    ensures BookedSlot(r.body) == Interval(start, end)
    ensures |r.body.attendees| == |participants|
    ensures forall k :: 0 <= k < |participants| ==> r.body.attendees[k] == Attendee(participants[k])
    ensures Emails(r.body) == participants
    ensures r.body.start.timeZone == TimeZoneName && r.body.end.timeZone == TimeZoneName
    ensures FollowsPolicy(r.body)
    ensures r.conferenceDataVersion == 1 && r.sendUpdates == "all"
  {
    var body := EventBody(
      Summary,
      Description,
      EventDateTime(start, TimeZoneName),
      EventDateTime(end, TimeZoneName),
      seq(|participants|, k requires 0 <= k < |participants| => Attendee(participants[k])),
      ConferenceCreateRequest(RequestId, MeetSolution),
      Reminders(false, [ReminderOverride(Email, ReminderLeadMinutes), ReminderOverride(Popup, ReminderLeadMinutes)]));
    InsertRequest(calendarId, body, 1, "all")
  }

  /** Booking depends on nothing but the slot and the participants: two
      bookings agree exactly when their slots and participant lists agree. */
  lemma BookDemoInjective(calendarId: string, s1: Instant, e1: Instant, p1: seq<string>,
                          s2: Instant, e2: Instant, p2: seq<string>)
    ensures BookDemo(calendarId, s1, e1, p1) == BookDemo(calendarId, s2, e2, p2)
        <==> s1 == s2 && e1 == e2 && p1 == p2
  {
  }
}
