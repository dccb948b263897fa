/**
 * Time-of-day ranges (`TimeSlot` in src/Schedulegenrator.py).
 *
 * Times are whole minutes since midnight; the ingestion layer only ever
 * produces `HH:MM` values, so seconds are always zero.
 */
module TimeSlots {
  import opened Wrappers

  const MinutesPerDay: int := 1440

  /** A time of day: 00:00 is 0, 23:59 is 1439. */
  type Minute = m: int | 0 <= m < MinutesPerDay

  datatype TimeSlot = TimeSlot(start: Minute, end: Minute)

  /** Nothing in the engine enforces this; it holds for slots read from well-formed input. */
  predicate WellFormed(t: TimeSlot) {
    t.start <= t.end
  }

  /** Minute `m` lies in the closed range `t`. */
  predicate Within(m: int, t: TimeSlot) {
    t.start <= m <= t.end
  }

  /**
   * Length of a slot in minutes. Both times are placed on the same date and
   * subtracted; the `seconds` field of the difference is taken modulo one day,
   * so a slot whose end precedes its start wraps past midnight.
   */
  function DurationMinutes(t: TimeSlot): (d: nat)
    ensures d < MinutesPerDay
    ensures t.start <= t.end ==> d == t.end - t.start
    ensures t.end < t.start ==> d == MinutesPerDay - (t.start - t.end)
  {
    (t.end - t.start) % MinutesPerDay
  }

  /** `duration_hours`: the length in hours, in [0, 24). */
  function DurationHours(t: TimeSlot): (h: real)
    ensures 0.0 <= h < 24.0
    ensures t.start <= t.end ==> h * 60.0 == (t.end - t.start) as real
    ensures t.end < t.start ==> h == 24.0 - (t.start - t.end) as real / 60.0
  {
    DurationMinutes(t) as real / 60.0
  }

  /** `overlaps_with`: closed-range test, so slots that only touch overlap. */
  predicate OverlapsWith(a: TimeSlot, b: TimeSlot) {
    a.start <= b.end && a.end >= b.start
  }

  /** `get_overlap`: the common part of two slots, or None when they do not overlap. */
  function GetOverlap(a: TimeSlot, b: TimeSlot): (r: Option<TimeSlot>)
    ensures r.None? <==> !OverlapsWith(a, b)
    ensures r.Some? ==> a.start <= r.value.start && b.start <= r.value.start
    ensures r.Some? ==> r.value.end <= a.end && r.value.end <= b.end
    ensures r.Some? && WellFormed(a) && WellFormed(b) ==> WellFormed(r.value)
  {
    if !OverlapsWith(a, b) then None
    else Some(TimeSlot(if a.start < b.start then b.start else a.start,
                       if a.end < b.end then a.end else b.end))
  }

  /** Overlap is symmetric and closed: slots that share only an endpoint overlap. */
  lemma OverlapSymmetricClosed(a: TimeSlot, b: TimeSlot)
    ensures OverlapsWith(a, b) <==> OverlapsWith(b, a)
    ensures WellFormed(a) && WellFormed(b) && a.end == b.start ==> OverlapsWith(a, b)
    ensures GetOverlap(a, b) == GetOverlap(b, a)
  {
  }

  /** The overlap holds exactly the minutes common to both slots. */
  lemma OverlapIsIntersection(a: TimeSlot, b: TimeSlot, m: int)
    requires GetOverlap(a, b).Some?
    ensures Within(m, GetOverlap(a, b).value) <==> Within(m, a) && Within(m, b)
  {
  }

  /** For well-formed slots, overlapping means sharing at least one minute. */
  lemma OverlapMeansCommonMinute(a: TimeSlot, b: TimeSlot)
    requires WellFormed(a) && WellFormed(b)
    ensures OverlapsWith(a, b) <==> exists m :: Within(m, a) && Within(m, b)
  {
    if OverlapsWith(a, b) {
      var m := if a.start < b.start then b.start else a.start;
      assert Within(m, a) && Within(m, b);
    }
  }

  /** A slot inside a well-formed slot is no longer than it. */
  lemma InsideIsShorter(inner: TimeSlot, outer: TimeSlot)
    requires WellFormed(inner) && WellFormed(outer)
    requires outer.start <= inner.start && inner.end <= outer.end
    ensures DurationHours(inner) <= DurationHours(outer)
  {
  }
}
