/**
 * The schedule structure both passes produce and the presenter renders:
 * a day-keyed dict (kept in its insertion order) of session records, each
 * holding up to two assignment records.
 */
module Schedules {
  import opened TimeSlots

  /** `{'Name', 'star', 'assigned_time'}`: the assigned time is the overlap actually worked. */
  datatype Assignment = Assignment(name: string, star: bool, assignedTime: TimeSlot)

  /** `{'lab_time', 'proctors'}`. */
  datatype Session = Session(labTime: TimeSlot, proctors: seq<Assignment>)

  /** One `day: [sessions]` entry of the schedule dict. */
  datatype DayPlan = DayPlan(day: string, sessions: seq<Session>)

  type Schedule = seq<DayPlan>

  /** The schedule dict's keys, in order. */
  function Days(s: Schedule): (r: seq<string>)
    ensures |r| == |s|
    ensures forall i :: 0 <= i < |s| ==> r[i] == s[i].day
  {
    if s == [] then [] else [s[0].day] + Days(s[1..])
  }

  /** Dict keys are distinct. */
  predicate DistinctDays(s: Schedule) {
    forall i, j :: 0 <= i < j < |s| ==> s[i].day != s[j].day
  }

  /** Hours worked by proctor `n` over a list of assignments. */
  function HoursIn(xs: seq<Assignment>, n: string): real {
    if xs == [] then 0.0
    else (if xs[0].name == n then DurationHours(xs[0].assignedTime) else 0.0) + HoursIn(xs[1..], n)
  }

  /** Hours worked by proctor `n` over a list of sessions. */
  function SessionHours(ss: seq<Session>, n: string): real {
    if ss == [] then 0.0 else HoursIn(ss[0].proctors, n) + SessionHours(ss[1..], n)
  }

  /** Hours worked by proctor `n` over a whole schedule. */
  function ScheduleHours(s: Schedule, n: string): real {
    if s == [] then 0.0 else SessionHours(s[0].sessions, n) + ScheduleHours(s[1..], n)
  }

  /** Sessions in ascending order of lab start time. */
  predicate StartsAscending(ss: seq<Session>) {
    forall i, j :: 0 <= i < j < |ss| ==> ss[i].labTime.start <= ss[j].labTime.start
  }

  lemma ConsAscending(s: Session, ss: seq<Session>)
    ensures StartsAscending(ss) && (forall x :: x in ss ==> s.labTime.start <= x.labTime.start)
            ==> StartsAscending([s] + ss)
  {
    if StartsAscending(ss) && (forall x :: x in ss ==> s.labTime.start <= x.labTime.start) {
      forall i, j | 0 <= i < j < |[s] + ss|
        ensures ([s] + ss)[i].labTime.start <= ([s] + ss)[j].labTime.start
      {
        if i == 0 {
          assert ([s] + ss)[j] == ss[j - 1];
        }
      }
    }
  }

  /** A run of sessions, all starting no later than an ascending run, stays ascending when prepended. */
  lemma PrependAscending(a: seq<Session>, b: seq<Session>)
    requires |a| <= 1
    ensures StartsAscending(b) && (forall x, y :: x in a && y in b ==> x.labTime.start <= y.labTime.start)
            ==> StartsAscending(a + b)
  {
    if a != [] {
      assert a == [a[0]];
      ConsAscending(a[0], b);
    } else {
      assert a + b == b;
    }
  }

  lemma SingleSessionHours(s: Session)
    ensures forall n :: SessionHours([s], n) == HoursIn(s.proctors, n)
  {
    assert [s][1..] == [];
  }

  lemma {:induction false} SessionHoursAppend(a: seq<Session>, b: seq<Session>)
    ensures forall n :: SessionHours(a + b, n) == SessionHours(a, n) + SessionHours(b, n)
  {
    if a == [] {
      assert a + b == b;
    } else {
      assert (a + b)[0] == a[0] && (a + b)[1..] == a[1..] + b;
      SessionHoursAppend(a[1..], b);
    }
  }

  /** No proctor name appears twice in one session. */
  predicate NamesDistinct(xs: seq<Assignment>) {
    forall i, j :: 0 <= i < j < |xs| ==> xs[i].name != xs[j].name
  }

  /** Ordering of lab slots by start time, the key `_generate_day_schedule` sorts on. */
  predicate StartLe(a: TimeSlot, b: TimeSlot) {
    a.start <= b.start
  }
}
