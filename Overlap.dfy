/**
 * The overlap rule shared by booking creation, booking update and the
 * availability queries, on half-open intervals of minutes.
 */
module Overlap {

  const MinutesPerHour: int := 60

  /** Every booking holds its table for this many hours from its start. */
  const BookingDurationHours: int := 2

  /** `DateTime.AddHours(h)` / `TimeSpan.FromHours(h)` in minutes. */
  function Hours(h: int): int
  {
    h * MinutesPerHour
  }

  /**
   * [aFrom, aTo) and [bFrom, bTo) intersect: `aFrom < bTo && aTo > bFrom`,
   * the test every booking query writes out.
   */
  predicate Overlaps(aFrom: int, aTo: int, bFrom: int, bTo: int)
  {
    aFrom < bTo && aTo > bFrom
  }

  /** Intervals that only share an end point do not overlap. */
  lemma TouchingIntervalsDoNotOverlap(a: int, b: int, c: int)
    ensures !Overlaps(a, b, b, c) && !Overlaps(b, c, a, b)
  {
  }
}
