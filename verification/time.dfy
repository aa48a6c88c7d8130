/**
 Instants and the fixed Iran Standard Time (IRST) wall clock that the
 availability engine reasons in.

 An instant is an integer number of microseconds since the Unix epoch. Python's
 timezone-aware datetimes compare by the instant they denote, at microsecond
 precision, whatever offset they are written in; so converting a datetime to
 IRST with `astimezone` leaves its instant unchanged, and only the calendar date
 and time of day it is read as depend on the offset.
 */
module Time {

  /** Microseconds since 1970-01-01T00:00:00Z. */
  type Instant = int

  const Minute: int := 60_000_000       // 60 seconds
  const Hour: int := 3_600_000_000      // 60 minutes
  const Day: int := 86_400_000_000      // 24 hours

  /** IRST is the fixed offset UTC+3:30 (3 hours 30 minutes). */
  const IrstOffset: int := 12_600_000_000

  /** A span of time, read as the half-open range [start, end). Nothing orders
      its two ends: calendar events are taken as they come. */
  datatype Interval = Interval(start: Instant, end: Instant)

  /** Half-open overlap: two intervals that merely touch do not overlap. */
  predicate Overlaps(a: Interval, b: Interval)
  {
    a.start < b.end && a.end > b.start
  }

  /** The IRST calendar date at `t`, as a count of days since 1970-01-01
      (rounded down, so instants before the epoch get negative dates). */
  function LocalDate(t: Instant): int
  {
    (t + IrstOffset) / Day
  }

  /** How long after IRST midnight `t` is. */
  function TimeOfDay(t: Instant): int
  {
    (t + IrstOffset) % Day
  }

  /** Reading `t` on the IRST clock and replacing its time of day by
      `hour`:`minute`:00.000000, keeping the date. */
  function ReplaceTimeOfDay(t: Instant, hour: nat, minute: nat): (r: Instant)
    requires hour < 24 && minute < 60
    ensures LocalDate(r) == LocalDate(t)
    ensures TimeOfDay(r) == hour * Hour + minute * Minute
  {
    var r := LocalDate(t) * Day + hour * Hour + minute * Minute - IrstOffset;
    DivModUnique(r + IrstOffset, LocalDate(t), hour * Hour + minute * Minute);
    r
  }

  /** Euclidean division by a day is determined by any quotient/remainder pair. */
  lemma DivModUnique(x: int, q: int, rem: int)
    requires x == q * Day + rem && 0 <= rem < Day
    ensures x / Day == q && x % Day == rem
  {
  }

  /** Moving an instant by `days` whole days moves its IRST date by exactly
      `days` and keeps its time of day: the offset is fixed, so no day is
      shorter or longer than 24 hours. */
  lemma ShiftByDays(t: Instant, days: int)
    ensures LocalDate(t + days * Day) == LocalDate(t) + days
    ensures TimeOfDay(t + days * Day) == TimeOfDay(t)
  {
  }
}
