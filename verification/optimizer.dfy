/**
 * The second pass: `ScheduleOptimizer` in src/ScheduleOptimizer.py.
 *
 * It rebuilds per-name statistics from an existing schedule, visits the
 * sessions in `(day name, start)` order and keeps at most two of each
 * session's original assignments, re-checking a weekly budget. The stats
 * dict is passed into and returned from every step.
 */
module Optimizer {
  import opened TimeSlots
  import opened Sorting
  import opened Schedules

  /** The keyword arguments of `optimize_schedule`, in hours. */
  datatype Params = Params(maxHours: real, minShift: real, maxShift: real)

  const Defaults: Params := Params(15.0, 2.5, 4.0)

  /** One `proctor_stats` entry. */
  datatype Stats = Stats(hours: real, star: bool, availability: nat)

  type StatsMap = map<string, Stats>

  // ---------------------------------------------------------------------------
  // Statistics
  // ---------------------------------------------------------------------------

  /** Every assignment of a list of sessions, in order. */
  function SessionAssignments(ss: seq<Session>): seq<Assignment> {
    if ss == [] then [] else ss[0].proctors + SessionAssignments(ss[1..])
  }

  /** Every assignment of the schedule, in the nested loop order of `_initialize_proctor_stats`. */
  function Assignments(s: Schedule): seq<Assignment> {
    if s == [] then [] else SessionAssignments(s[0].sessions) + Assignments(s[1..])
  }

  /** The assignments of `xs` carrying name `n`, in order. */
  function Occurrences(xs: seq<Assignment>, n: string): seq<Assignment> {
    if xs == [] then [] else (if xs[0].name == n then [xs[0]] else []) + Occurrences(xs[1..], n)
  }

  lemma {:induction false} OccurrencesExist(xs: seq<Assignment>, n: string)
    ensures |Occurrences(xs, n)| > 0 <==> exists a :: a in xs && a.name == n
  {
    if xs != [] {
      OccurrencesExist(xs[1..], n);
      if xs[0].name != n {
        assert forall a :: a in xs && a.name == n ==> a in xs[1..];
      }
    }
  }

  /** One pass of the innermost loop: create the entry on first sight, then count the occurrence. */
  function Tally(st: StatsMap, a: Assignment): StatsMap {
    if a.name in st then st[a.name := st[a.name].(availability := st[a.name].availability + 1)]
    else st[a.name := Stats(0.0, a.star, 1)]
  }

  function TallyAll(st: StatsMap, xs: seq<Assignment>): StatsMap
    decreases xs
  {
    if xs == [] then st else TallyAll(Tally(st, xs[0]), xs[1..])
  }

  /**
   * `_initialize_proctor_stats`. The stats hold exactly the names that occur
   * in the schedule; each starts at zero hours, takes its star flag from its
   * first occurrence and counts every occurrence as availability.
   */
  function InitStats(s: Schedule): (r: StatsMap)
    ensures forall n :: n in r <==> exists a :: a in Assignments(s) && a.name == n
    ensures forall n :: n in r ==>
              && |Occurrences(Assignments(s), n)| > 0
              && r[n] == Stats(0.0, Occurrences(Assignments(s), n)[0].star, |Occurrences(Assignments(s), n)|)
  {
    TallyFromEmpty(Assignments(s));
    TallyAll(map[], Assignments(s))
  }

  /** Tallying `xs` into `st` adds an entry for exactly the names occurring in `xs`. */
  lemma {:induction false} TallyAllKeys(st: StatsMap, xs: seq<Assignment>, n: string)
    ensures n in TallyAll(st, xs) <==> n in st || |Occurrences(xs, n)| > 0
    decreases xs
  {
    if xs != [] {
      var st1 := Tally(st, xs[0]);
      assert TallyAll(st, xs) == TallyAll(st1, xs[1..]);
      TallyAllKeys(st1, xs[1..], n);
    }
  }

  /**
   * Tallying `xs` into `st` raises every count by the occurrences in `xs`, and
   * a new name is starred as its first occurrence in `xs`.
   */
  lemma {:induction false} TallyAllCounts(st: StatsMap, xs: seq<Assignment>, n: string)
    requires n in st || |Occurrences(xs, n)| > 0
    ensures n in TallyAll(st, xs)
    ensures n in st ==> TallyAll(st, xs)[n]
                        == st[n].(availability := st[n].availability + |Occurrences(xs, n)|)
    ensures n !in st ==> TallyAll(st, xs)[n] == Stats(0.0, Occurrences(xs, n)[0].star, |Occurrences(xs, n)|)
    decreases xs
  {
    TallyAllKeys(st, xs, n);
    if xs != [] {
      var st1 := Tally(st, xs[0]);
      assert TallyAll(st, xs) == TallyAll(st1, xs[1..]);
      if xs[0].name == n {
        if n in st {
          assert st1[n] == st[n].(availability := st[n].availability + 1);
        } else {
          assert st1[n] == Stats(0.0, xs[0].star, 1);
        }
      } else {
        assert n in st1 <==> n in st;
        assert n in st ==> st1[n] == st[n];
      }
      TallyAllCounts(st1, xs[1..], n);
    }
  }

  /** Tallying from no stats gives every occurring name its occurrence count and first star flag. */
  lemma TallyFromEmpty(xs: seq<Assignment>)
    ensures forall n :: n in TallyAll(map[], xs) <==> exists a :: a in xs && a.name == n
    ensures forall n :: n in TallyAll(map[], xs) ==>
              && |Occurrences(xs, n)| > 0
              && TallyAll(map[], xs)[n] == Stats(0.0, Occurrences(xs, n)[0].star, |Occurrences(xs, n)|)
  {
    forall n
      ensures n in TallyAll(map[], xs) <==> exists a :: a in xs && a.name == n
      ensures n in TallyAll(map[], xs) ==>
                && |Occurrences(xs, n)| > 0
                && TallyAll(map[], xs)[n] == Stats(0.0, Occurrences(xs, n)[0].star, |Occurrences(xs, n)|)
    {
      TallyAllKeys(map[], xs, n);
      OccurrencesExist(xs, n);
      if |Occurrences(xs, n)| > 0 {
        TallyAllCounts(map[], xs, n);
      }
    }
  }

  // ---------------------------------------------------------------------------
  // Visiting order
  // ---------------------------------------------------------------------------

  /** A `(day, session)` pair of `_sort_sessions`; the third tuple element is the session's own proctor list. */
  datatype Entry = Entry(day: string, session: Session)

  function DayEntries(day: string, ss: seq<Session>): (r: seq<Entry>)
    ensures |r| == |ss|
    ensures forall i :: 0 <= i < |ss| ==> r[i] == Entry(day, ss[i])
  {
    if ss == [] then [] else [Entry(day, ss[0])] + DayEntries(day, ss[1..])
  }

  /** Every session of the schedule, tagged with its day, in dict order. */
  function Entries(s: Schedule): seq<Entry> {
    if s == [] then [] else DayEntries(s[0].day, s[0].sessions) + Entries(s[1..])
  }

  /** Every entry is a session of some day of the schedule, and its assignments are the schedule's. */
  lemma {:induction false} EntriesFromSchedule(s: Schedule, e: Entry)
    requires e in Entries(s)
    ensures exists i :: 0 <= i < |s| && s[i].day == e.day && e.session in s[i].sessions
    ensures forall a :: a in e.session.proctors ==> a in Assignments(s)
  {
    var head := DayEntries(s[0].day, s[0].sessions);
    if e in head {
      var k :| 0 <= k < |head| && head[k] == e;
      SessionAssignmentsCover(s[0].sessions, k);
    } else {
      EntriesFromSchedule(s[1..], e);
      var i :| 0 <= i < |s[1..]| && s[1..][i].day == e.day && e.session in s[1..][i].sessions;
      assert s[i + 1] == s[1..][i];
    }
  }

  lemma {:induction false} SessionAssignmentsCover(ss: seq<Session>, k: nat)
    requires k < |ss|
    ensures forall a :: a in ss[k].proctors ==> a in SessionAssignments(ss)
  {
    if k > 0 {
      SessionAssignmentsCover(ss[1..], k - 1);
    }
  }

  /** The sort key `(day, lab start)`, compared as a Python tuple. */
  predicate KeyLe(a: Entry, b: Entry) {
    if a.day == b.day then a.session.labTime.start <= b.session.labTime.start
    else StrLe(a.day, b.day)
  }

  lemma KeyLeTotal()
    ensures TotalPreorder(KeyLe)
  {
    forall a: Entry, b: Entry, c: Entry ensures (KeyLe(a, b) || KeyLe(b, a))
                                             && (KeyLe(a, b) && KeyLe(b, c) ==> KeyLe(a, c)) {
      StrLeTotalOrder(a.day, b.day, c.day);
      StrLeTotalOrder(b.day, c.day, a.day);
      StrLeTotalOrder(c.day, a.day, b.day);
    }
  }

  /** `_sort_sessions`: Python's stable `sorted` by `(day, start)`. */
  function SortSessions(s: Schedule): (r: seq<Entry>)
    ensures multiset(r) == multiset(Entries(s))
    ensures SortedBy(r, KeyLe)
  {
    KeyLeTotal();
    SortBySorted(Entries(s), KeyLe);
    SortBy(Entries(s), KeyLe)
  }

  /** Sessions with equal keys keep the order they have in the schedule. */
  lemma SortSessionsStable(s: Schedule, k: Entry)
    ensures Ties(SortSessions(s), KeyLe, k) == Ties(Entries(s), KeyLe, k)
  {
    KeyLeTotal();
    SortByStable(Entries(s), KeyLe, k);
  }

  // ---------------------------------------------------------------------------
  // Choosing the proctors of one session
  // ---------------------------------------------------------------------------

  /** `_calculate_priority_score`; the hours term uses the literal 15, not the budget parameter. */
  function Score(st: Stats): real {
    (if st.star then 1000.0 else 0.0) + 10.0 * st.availability as real + (15.0 - st.hours)
  }

  /** `proctor_stats[Name]`, read as empty stats for a name the map lacks. */
  function StatsOf(st: StatsMap, n: string): Stats {
    if n in st then st[n] else Stats(0.0, false, 0)
  }

  /** Heap order of the `(-score, Name, proctor)` tuples: higher score first, then ascending name. */
  predicate Outranks(st: StatsMap, a: Assignment, b: Assignment) {
    Score(StatsOf(st, a.name)) > Score(StatsOf(st, b.name))
    || (Score(StatsOf(st, a.name)) == Score(StatsOf(st, b.name)) && StrLe(a.name, b.name))
  }

  function Rank(st: StatsMap): (Assignment, Assignment) -> bool {
    (a: Assignment, b: Assignment) => Outranks(st, a, b)
  }

  lemma RankTotal(st: StatsMap)
    ensures TotalPreorder(Rank(st))
  {
    forall a: Assignment, b: Assignment, c: Assignment
      ensures (Outranks(st, a, b) || Outranks(st, b, a))
           && (Outranks(st, a, b) && Outranks(st, b, c) ==> Outranks(st, a, c))
    {
      StrLeTotalOrder(a.name, b.name, c.name);
    }
  }

  /** The budget check of `_find_best_proctors`, against the hours before this session. */
  function Admissible(st: StatsMap, duration: real, prm: Params): Assignment -> bool {
    (a: Assignment) => StatsOf(st, a.name).hours + duration <= prm.maxHours
  }

  /** The original proctors of `sess` that pass the budget check. */
  function Admitted(sess: Session, st: StatsMap, prm: Params): seq<Assignment> {
    Filter(sess.proctors, Admissible(st, DurationHours(sess.labTime), prm))
  }

  /** The session's lab duration lies within the shift bounds. */
  predicate InBounds(t: TimeSlot, prm: Params) {
    prm.minShift <= DurationHours(t) <= prm.maxShift
  }

  /**
   * `_find_best_proctors`: nothing for a session outside the shift bounds,
   * otherwise the two best-ranked admitted original proctors.
   */
  function FindBest(sess: Session, st: StatsMap, prm: Params): (r: seq<Assignment>)
    ensures |r| <= 2
    ensures multiset(r) <= multiset(Admitted(sess, st, prm))
    ensures r != [] ==> InBounds(sess.labTime, prm)
  {
    var admitted := Admitted(sess, st, prm);
    if !InBounds(sess.labTime, prm) then []
    else
      TakeSplit(SortBy(admitted, Rank(st)), 2);
      Take(SortBy(admitted, Rank(st)), 2)
  }

  /** The kept proctors are original assignments, unchanged, each within budget before this session. */
  lemma FindBestAdmits(sess: Session, st: StatsMap, prm: Params)
    requires forall a :: a in sess.proctors ==> a.name in st
    ensures multiset(FindBest(sess, st, prm)) <= multiset(sess.proctors)
    ensures forall a :: a in FindBest(sess, st, prm) ==>
              a in sess.proctors && st[a.name].hours + DurationHours(sess.labTime) <= prm.maxHours
  {
    var r := FindBest(sess, st, prm);
    var admitted := Admitted(sess, st, prm);
    forall a | a in r ensures a in admitted {
      assert a in multiset(r);
    }
    forall a | a in admitted ensures a in sess.proctors && Admissible(st, DurationHours(sess.labTime), prm)(a) {
      var i :| 0 <= i < |admitted| && admitted[i] == a;
    }
  }

  /** A session is dropped exactly when it is outside the shift bounds or no original proctor passes the budget check. */
  lemma FindBestDropped(sess: Session, st: StatsMap, prm: Params)
    requires forall a :: a in sess.proctors ==> a.name in st
    ensures FindBest(sess, st, prm) == [] <==>
              !InBounds(sess.labTime, prm)
              || forall a :: a in sess.proctors ==> st[a.name].hours + DurationHours(sess.labTime) > prm.maxHours
  {
    var admitted := Admitted(sess, st, prm);
    FilterEmpty(sess.proctors, Admissible(st, DurationHours(sess.labTime), prm));
    if admitted != [] {
      assert |SortBy(admitted, Rank(st))| > 0;
    }
  }

  /**
   * The kept proctors are the best two admitted ones: in ranking order, and
   * no admitted proctor left out outranks a kept one; fewer than two are kept
   * only when fewer were admitted.
   */
  lemma FindBestIsTopTwo(sess: Session, st: StatsMap, prm: Params)
    requires forall a :: a in sess.proctors ==> a.name in st
    requires InBounds(sess.labTime, prm)
    ensures var r := FindBest(sess, st, prm);
      && |r| == (if |Admitted(sess, st, prm)| < 2 then |Admitted(sess, st, prm)| else 2)
      && (forall i, j :: 0 <= i < j < |r| ==> Outranks(st, r[i], r[j]))
      && (forall x, y :: x in multiset(Admitted(sess, st, prm)) - multiset(r) && y in r ==> Outranks(st, y, x))
  {
    var le := Rank(st);
    RankTotal(st);
    var admitted := Admitted(sess, st, prm);
    TakeSortedIsTop(admitted, le, 2);
    var r := FindBest(sess, st, prm);
    assert r == Take(SortBy(admitted, le), 2);
    forall i, j | 0 <= i < j < |r|
      ensures Outranks(st, r[i], r[j])
    {
      assert le(r[i], r[j]);
    }
    forall x, y | x in multiset(admitted) - multiset(r) && y in r
      ensures Outranks(st, y, x)
    {
      assert le(y, x);
    }
  }

  /**
   * A star proctor is kept ahead of a regular one whose hours and availability
   * are the same: a regular proctor is never ranked above such a star.
   */
  lemma OptimizerStarFirst(sess: Session, st: StatsMap, prm: Params)
    requires forall a :: a in sess.proctors ==> a.name in st
    ensures var r := FindBest(sess, st, prm);
      forall i, j :: 0 <= i < j < |r| && !StatsOf(st, r[i].name).star && StatsOf(st, r[j].name).star ==>
        StatsOf(st, r[i].name).hours != StatsOf(st, r[j].name).hours
        || StatsOf(st, r[i].name).availability != StatsOf(st, r[j].name).availability
  {
    if InBounds(sess.labTime, prm) {
      FindBestIsTopTwo(sess, st, prm);
    }
  }

  // ---------------------------------------------------------------------------
  // The optimization loop
  // ---------------------------------------------------------------------------

  /** `_update_proctor_hours`: each kept proctor's hours grow by the duration of its own assigned time. */
  function UpdateHours(best: seq<Assignment>, st: StatsMap): (r: StatsMap)
    requires forall a :: a in best ==> a.name in st
    ensures r.Keys == st.Keys
    ensures forall n :: n in st ==> r[n] == st[n].(hours := st[n].hours + HoursIn(best, n))
  {
    if best == [] then st
    else
      var a := best[0];
      UpdateHours(best[1..], st[a.name := st[a.name].(hours := st[a.name].hours + DurationHours(a.assignedTime))])
  }

  /** Emitted entry `o` is input entry `e` with a non-empty sub-list of its proctors, within the shift bounds. */
  predicate Kept(o: Entry, e: Entry, prm: Params) {
    && o.day == e.day
    && o.session.labTime == e.session.labTime
    && multiset(o.session.proctors) <= multiset(e.session.proctors)
    && 1 <= |o.session.proctors| <= 2
    && InBounds(o.session.labTime, prm)
  }

  /** Every name assigned in some entry of `es` has stats. */
  predicate Known(es: seq<Entry>, st: StatsMap) {
    forall e, a :: e in es && a in e.session.proctors ==> a.name in st
  }

  /** One iteration of the loop of `optimize_schedule`: the entry it emits, if any, and the stats after it. */
  function Visit(e: Entry, st: StatsMap, prm: Params): (r: (seq<Entry>, StatsMap))
    requires forall a :: a in e.session.proctors ==> a.name in st
    ensures r.1.Keys == st.Keys
    ensures |r.0| <= 1 && forall o :: o in r.0 ==> Kept(o, e, prm)
    ensures forall n :: n in st ==> r.1[n].star == st[n].star && r.1[n].availability == st[n].availability
    ensures forall n :: n in st ==> r.1[n].hours == st[n].hours + EntryHours(r.0, n)
  {
    var best := FindBest(e.session, st, prm);
    FindBestAdmits(e.session, st, prm);
    if best == [] then ([], st)
    else ([Entry(e.day, Session(e.session.labTime, best))], UpdateHours(best, st))
  }

  /**
   * A visited session is dropped exactly when its lab duration is outside the
   * shift bounds or every original proctor fails the budget check.
   */
  lemma VisitDropped(e: Entry, st: StatsMap, prm: Params)
    requires forall a :: a in e.session.proctors ==> a.name in st
    ensures Visit(e, st, prm).0 == [] <==>
              !InBounds(e.session.labTime, prm)
              || forall a :: a in e.session.proctors ==> st[a.name].hours + DurationHours(e.session.labTime) > prm.maxHours
  {
    FindBestDropped(e.session, st, prm);
  }

  /** Hours worked by proctor `n` over the sessions of a list of entries. */
  function EntryHours(es: seq<Entry>, n: string): real {
    if es == [] then 0.0 else HoursIn(es[0].session.proctors, n) + EntryHours(es[1..], n)
  }

  /** The loop of `optimize_schedule` over the sorted entries: the emitted entries in visiting order, and the final stats. */
  function Refine(es: seq<Entry>, st: StatsMap, prm: Params): (r: (seq<Entry>, StatsMap))
    requires Known(es, st)
    ensures r.1.Keys == st.Keys
    ensures forall o :: o in r.0 ==> exists e :: e in es && Kept(o, e, prm)
  {
    if es == [] then ([], st)
    else
      var v := Visit(es[0], st, prm);
      var rest := Refine(es[1..], v.1, prm);
      RefineJoin(es, prm, v.0, rest.0);
      (v.0 + rest.0, rest.1)
  }

  /** The final stats: hours grew by exactly the emitted assignments' own durations; nothing else changed. */
  lemma {:induction false} RefineHours(es: seq<Entry>, st: StatsMap, prm: Params)
    requires Known(es, st)
    ensures forall n :: n in st ==>
              && Refine(es, st, prm).1[n].hours == st[n].hours + EntryHours(Refine(es, st, prm).0, n)
              && Refine(es, st, prm).1[n].star == st[n].star
              && Refine(es, st, prm).1[n].availability == st[n].availability
  {
    if es != [] {
      var v := Visit(es[0], st, prm);
      var rest := Refine(es[1..], v.1, prm);
      RefineHours(es[1..], v.1, prm);
      assert Refine(es, st, prm) == (v.0 + rest.0, rest.1);
      EntryHoursAppend(v.0, rest.0);
    }
  }

  lemma {:induction false} EntryHoursAppend(a: seq<Entry>, b: seq<Entry>)
    ensures forall n :: EntryHours(a + b, n) == EntryHours(a, n) + EntryHours(b, n)
  {
    if a != [] {
      EntryHoursAppend(a[1..], b);
      assert (a + b)[1..] == a[1..] + b;
    } else {
      assert a + b == b;
    }
  }

  lemma RefineJoin(es: seq<Entry>, prm: Params, head: seq<Entry>, rest: seq<Entry>)
    requires es != []
    requires forall o :: o in head ==> Kept(o, es[0], prm)
    requires forall o :: o in rest ==> exists e :: e in es[1..] && Kept(o, e, prm)
    ensures forall o :: o in head + rest ==> exists e :: e in es && Kept(o, e, prm)
  {
    forall o | o in head + rest ensures exists e :: e in es && Kept(o, e, prm) {
      if o in head {
        assert es[0] in es;
      } else {
        var e :| e in es[1..] && Kept(o, e, prm);
        assert e in es;
      }
    }
  }

  // ---------------------------------------------------------------------------
  // Order of the emitted sessions
  // ---------------------------------------------------------------------------

  /** Entries of the same day appear in ascending order of lab start. */
  predicate DayAscending(es: seq<Entry>) {
    forall i, j :: 0 <= i < j < |es| && es[i].day == es[j].day
                   ==> es[i].session.labTime.start <= es[j].session.labTime.start
  }

  lemma SortedIsDayAscending(es: seq<Entry>)
    requires SortedBy(es, KeyLe)
    ensures DayAscending(es)
  {
    forall i, j | 0 <= i < j < |es| && es[i].day == es[j].day
      ensures es[i].session.labTime.start <= es[j].session.labTime.start
    {
      assert KeyLe(es[i], es[j]);
    }
  }

  /** The loop emits its entries in visiting order, so it keeps each day's start order. */
  lemma {:induction false} RefineAscending(es: seq<Entry>, st: StatsMap, prm: Params)
    requires Known(es, st)
    requires DayAscending(es)
    ensures DayAscending(Refine(es, st, prm).0)
  {
    if es != [] {
      var v := Visit(es[0], st, prm);
      var rest := Refine(es[1..], v.1, prm);
      assert DayAscending(es[1..]) by {
        forall i, j | 0 <= i < j < |es[1..]| && es[1..][i].day == es[1..][j].day
          ensures es[1..][i].session.labTime.start <= es[1..][j].session.labTime.start
        {
          assert es[1..][i] == es[i + 1] && es[1..][j] == es[j + 1];
        }
      }
      RefineAscending(es[1..], v.1, prm);
      forall e | e in es[1..] && e.day == es[0].day
        ensures es[0].session.labTime.start <= e.session.labTime.start
      {
        var j :| 0 <= j < |es[1..]| && es[1..][j] == e;
        assert es[j + 1] == e;
      }
      KeptNotEarlier(es[1..], rest.0, es[0], prm);
      PrependDayAscending(v.0, rest.0, es[0]);
    }
  }

  /** Entries kept from entries that start no earlier than `e` on its day start no earlier either. */
  lemma KeptNotEarlier(es: seq<Entry>, kept: seq<Entry>, e: Entry, prm: Params)
    requires forall o :: o in kept ==> exists x :: x in es && Kept(o, x, prm)
    requires forall x :: x in es && x.day == e.day ==> e.session.labTime.start <= x.session.labTime.start
    ensures forall o :: o in kept && o.day == e.day ==> e.session.labTime.start <= o.session.labTime.start
  {
    forall o | o in kept && o.day == e.day ensures e.session.labTime.start <= o.session.labTime.start {
      var x :| x in es && Kept(o, x, prm);
    }
  }

  lemma PrependDayAscending(head: seq<Entry>, rest: seq<Entry>, e: Entry)
    requires |head| <= 1
    requires forall o :: o in head ==> o.day == e.day && o.session.labTime == e.session.labTime
    requires DayAscending(rest)
    requires forall o :: o in rest && o.day == e.day ==> e.session.labTime.start <= o.session.labTime.start
    ensures DayAscending(head + rest)
  {
    var r := head + rest;
    forall i, j | 0 <= i < j < |r| && r[i].day == r[j].day
      ensures r[i].session.labTime.start <= r[j].session.labTime.start
    {
      if i < |head| {
        assert r[i] in head;
        assert r[j] == rest[j - |head|];
      } else {
        assert r[i] == rest[i - |head|] && r[j] == rest[j - |head|];
      }
    }
  }

  // ---------------------------------------------------------------------------
  // Weekly budget
  // ---------------------------------------------------------------------------

  /** Slot `inner` lies within the well-formed slot `outer`. */
  predicate Inside(inner: TimeSlot, outer: TimeSlot) {
    WellFormed(inner) && WellFormed(outer) && outer.start <= inner.start && inner.end <= outer.end
  }

  /** Each assigned time lies inside the lab slot, and no name repeats within the session. */
  predicate Consistent(sess: Session) {
    && NamesDistinct(sess.proctors)
    && forall a :: a in sess.proctors ==> Inside(a.assignedTime, sess.labTime)
  }

  /** With distinct names, an element occurs at most once. */
  lemma {:induction false} DistinctOnce(p: seq<Assignment>, x: Assignment)
    requires NamesDistinct(p)
    ensures multiset(p)[x] <= 1
  {
    if p != [] {
      assert p == [p[0]] + p[1..];
      assert NamesDistinct(p[1..]) by {
        forall i, j | 0 <= i < j < |p[1..]| ensures p[1..][i].name != p[1..][j].name {
          assert p[1..][i] == p[i + 1] && p[1..][j] == p[j + 1];
        }
      }
      DistinctOnce(p[1..], x);
      if p[0] == x {
        forall k | 0 <= k < |p[1..]| ensures p[1..][k] != x {
          assert p[1..][k] == p[k + 1];
        }
        assert x !in multiset(p[1..]);
      }
    }
  }

  /** A sub-multiset of a list with distinct names has distinct names. */
  lemma SubDistinct(b: seq<Assignment>, p: seq<Assignment>)
    requires multiset(b) <= multiset(p) && NamesDistinct(p)
    ensures NamesDistinct(b)
  {
    forall i, j | 0 <= i < j < |b| ensures b[i].name != b[j].name {
      if b[i] == b[j] {
        assert b == b[..j] + b[j..];
        assert b[i] in b[..j] && b[j] in b[j..];
        assert multiset(b)[b[i]] >= 2;
        DistinctOnce(p, b[i]);
      } else {
        assert b[i] in multiset(p) && b[j] in multiset(p);
        var i' :| 0 <= i' < |p| && p[i'] == b[i];
        var j' :| 0 <= j' < |p| && p[j'] == b[j];
        assert i' != j';
      }
    }
  }

  /** With distinct names, a proctor's hours in a list are its one assignment's duration, or zero. */
  lemma {:induction false} HoursInDistinct(xs: seq<Assignment>, n: string)
    requires NamesDistinct(xs)
    ensures (forall a :: a in xs ==> a.name != n) ==> HoursIn(xs, n) == 0.0
    ensures forall a :: a in xs && a.name == n ==> HoursIn(xs, n) == DurationHours(a.assignedTime)
  {
    if xs != [] {
      assert NamesDistinct(xs[1..]) by {
        forall i, j | 0 <= i < j < |xs[1..]| ensures xs[1..][i].name != xs[1..][j].name {
          assert xs[1..][i] == xs[i + 1] && xs[1..][j] == xs[j + 1];
        }
      }
      HoursInDistinct(xs[1..], n);
      if xs[0].name == n {
        forall a | a in xs[1..] ensures a.name != n {
          var k :| 0 <= k < |xs[1..]| && xs[1..][k] == a;
          assert xs[k + 1] == a;
        }
      }
    }
  }

  /** One visit keeps every proctor within budget. */
  lemma VisitWithinBudget(e: Entry, st: StatsMap, prm: Params)
    requires forall a :: a in e.session.proctors ==> a.name in st
    requires Consistent(e.session)
    requires forall n :: n in st ==> st[n].hours <= prm.maxHours
    ensures forall n :: n in Visit(e, st, prm).1 ==> Visit(e, st, prm).1[n].hours <= prm.maxHours
  {
    var best := FindBest(e.session, st, prm);
    if best != [] {
      FindBestAdmits(e.session, st, prm);
      SubDistinct(best, e.session.proctors);
      forall n | n in st ensures st[n].hours + HoursIn(best, n) <= prm.maxHours {
        HoursInDistinct(best, n);
        if a :| a in best && a.name == n {
          InsideIsShorter(a.assignedTime, e.session.labTime);
        }
      }
    }
  }

  /** The whole loop keeps every proctor within budget. */
  lemma {:induction false} RefineWithinBudget(es: seq<Entry>, st: StatsMap, prm: Params)
    requires Known(es, st)
    requires forall e :: e in es ==> Consistent(e.session)
    requires forall n :: n in st ==> st[n].hours <= prm.maxHours
    ensures forall n :: n in Refine(es, st, prm).1 ==> Refine(es, st, prm).1[n].hours <= prm.maxHours
  {
    if es != [] {
      var v := Visit(es[0], st, prm);
      VisitWithinBudget(es[0], st, prm);
      RefineWithinBudget(es[1..], v.1, prm);
      assert Refine(es, st, prm).1 == Refine(es[1..], v.1, prm).1;
    }
  }

  // ---------------------------------------------------------------------------
  // Building the optimized schedule
  // ---------------------------------------------------------------------------

  /** The empty optimized schedule: one empty day per input day, in input order. */
  function EmptyBuckets(s: Schedule): (r: Schedule)
    ensures |r| == |s|
    ensures forall i :: 0 <= i < |s| ==> r[i] == DayPlan(s[i].day, [])
  {
    if s == [] then [] else [DayPlan(s[0].day, [])] + EmptyBuckets(s[1..])
  }

  /** `optimized_schedule[day].append(...)`: appends to the entry for `e.day`. */
  function Place(out: Schedule, e: Entry): (r: Schedule)
    ensures |r| == |out|
    ensures forall i :: 0 <= i < |out| ==> r[i].day == out[i].day
  {
    if out == [] then []
    else if out[0].day == e.day then [DayPlan(out[0].day, out[0].sessions + [e.session])] + out[1..]
    else [out[0]] + Place(out[1..], e)
  }

  function PlaceAll(out: Schedule, es: seq<Entry>): (r: Schedule)
    ensures |r| == |out|
    ensures forall i :: 0 <= i < |out| ==> r[i].day == out[i].day
    decreases es
  {
    if es == [] then out else PlaceAll(Place(out, es[0]), es[1..])
  }

  /** The sessions of the entries for day `d`, in order. */
  function SessionsOn(es: seq<Entry>, d: string): seq<Session> {
    if es == [] then [] else (if es[0].day == d then [es[0].session] else []) + SessionsOn(es[1..], d)
  }

  /** With distinct days, an entry is appended to its own day and nowhere else. */
  lemma {:induction false} PlaceOne(out: Schedule, e: Entry, i: nat)
    requires DistinctDays(out) && i < |out|
    ensures Place(out, e)[i].sessions == out[i].sessions + (if out[i].day == e.day then [e.session] else [])
  {
    if out[0].day != e.day && i > 0 {
      assert DistinctDays(out[1..]) by {
        forall j, k | 0 <= j < k < |out[1..]| ensures out[1..][j].day != out[1..][k].day {
          assert out[1..][j] == out[j + 1] && out[1..][k] == out[k + 1];
        }
      }
      PlaceOne(out[1..], e, i - 1);
    } else if i > 0 {
      assert out[i].day != out[0].day;
    }
  }

  /** Appending entry by entry leaves each day holding its own entries' sessions, in order. */
  lemma {:induction false} PlaceAllByDay(out: Schedule, es: seq<Entry>, i: nat)
    requires DistinctDays(out) && i < |out|
    ensures PlaceAll(out, es)[i].sessions == out[i].sessions + SessionsOn(es, out[i].day)
    decreases es
  {
    if es != [] {
      var out1 := Place(out, es[0]);
      PlaceOne(out, es[0], i);
      assert DistinctDays(out1);
      PlaceAllByDay(out1, es[1..], i);
      assert out1[i].day == out[i].day;
    }
  }

  /** Every name assigned in the schedule has stats, so the loop never misses a name. */
  lemma SortedKnown(s: Schedule)
    ensures Known(SortSessions(s), InitStats(s))
  {
    forall e, a | e in SortSessions(s) && a in e.session.proctors ensures a.name in InitStats(s) {
      assert e in multiset(Entries(s));
      EntriesFromSchedule(s, e);
    }
  }

  /** The stats and the loop as `optimize_schedule` runs them. */
  function OptimizeRun(s: Schedule, prm: Params): (seq<Entry>, StatsMap) {
    SortedKnown(s);
    Refine(SortSessions(s), InitStats(s), prm)
  }

  /** `optimize_schedule`: the optimized schedule has exactly the input's days, in order. */
  function OptimizeSchedule(s: Schedule, prm: Params): (r: Schedule)
    ensures |r| == |s|
    ensures forall i :: 0 <= i < |s| ==> r[i].day == s[i].day
  {
    PlaceAll(EmptyBuckets(s), OptimizeRun(s, prm).0)
  }

  /** Every session listed for day `d` is the session of an entry for `d`. */
  lemma {:induction false} SessionsOnFrom(es: seq<Entry>, d: string)
    ensures forall x :: x in SessionsOn(es, d) ==> exists j :: 0 <= j < |es| && es[j].day == d && es[j].session == x
  {
    if es != [] {
      SessionsOnFrom(es[1..], d);
      forall x | x in SessionsOn(es, d)
        ensures exists j :: 0 <= j < |es| && es[j].day == d && es[j].session == x
      {
        assert SessionsOn(es, d) == (if es[0].day == d then [es[0].session] else []) + SessionsOn(es[1..], d);
        if !(es[0].day == d && x == es[0].session) {
          assert x in SessionsOn(es[1..], d);
          var j :| 0 <= j < |es[1..]| && es[1..][j].day == d && es[1..][j].session == x;
          assert es[j + 1] == es[1..][j];
        }
      }
    }
  }

  /** A day's sessions taken from day-ascending entries are in ascending start order. */
  lemma {:induction false} SessionsOnAscending(es: seq<Entry>, d: string)
    requires DayAscending(es)
    ensures StartsAscending(SessionsOn(es, d))
  {
    if es != [] {
      assert DayAscending(es[1..]) by {
        forall i, j | 0 <= i < j < |es[1..]| && es[1..][i].day == es[1..][j].day
          ensures es[1..][i].session.labTime.start <= es[1..][j].session.labTime.start
        {
          assert es[1..][i] == es[i + 1] && es[1..][j] == es[j + 1];
        }
      }
      SessionsOnAscending(es[1..], d);
      if es[0].day == d {
        SessionsOnFrom(es[1..], d);
        forall x | x in SessionsOn(es[1..], d) ensures es[0].session.labTime.start <= x.labTime.start {
          var j :| 0 <= j < |es[1..]| && es[1..][j].day == d && es[1..][j].session == x;
          assert es[j + 1] == es[1..][j];
        }
        ConsAscending(es[0].session, SessionsOn(es[1..], d));
      } else {
        assert SessionsOn(es, d) == SessionsOn(es[1..], d);
      }
    }
  }

  /** Each day of the optimized schedule holds the emitted sessions of that day, in visiting order. */
  lemma OptimizeByDay(s: Schedule, prm: Params, i: nat)
    requires DistinctDays(s) && i < |s|
    ensures OptimizeSchedule(s, prm)[i] == DayPlan(s[i].day, SessionsOn(OptimizeRun(s, prm).0, s[i].day))
  {
    var out := EmptyBuckets(s);
    assert DistinctDays(out);
    PlaceAllByDay(out, OptimizeRun(s, prm).0, i);
  }

  /**
   * Every session of an optimized day is a session of the same input day,
   * with the same lab slot, one or two of its original assignments and a
   * duration within the shift bounds.
   */
  lemma OptimizeKeepsSessions(s: Schedule, prm: Params, i: nat)
    requires DistinctDays(s) && i < |s|
    ensures forall o :: o in OptimizeSchedule(s, prm)[i].sessions ==>
              exists x :: x in s[i].sessions && o.labTime == x.labTime
                          && multiset(o.proctors) <= multiset(x.proctors)
                          && 1 <= |o.proctors| <= 2 && InBounds(o.labTime, prm)
  {
    var run := OptimizeRun(s, prm).0;
    OptimizeByDay(s, prm, i);
    SessionsOnFrom(run, s[i].day);
    forall o | o in OptimizeSchedule(s, prm)[i].sessions
      ensures exists x :: x in s[i].sessions && o.labTime == x.labTime
                          && multiset(o.proctors) <= multiset(x.proctors)
                          && 1 <= |o.proctors| <= 2 && InBounds(o.labTime, prm)
    {
      var j :| 0 <= j < |run| && run[j].day == s[i].day && run[j].session == o;
      assert run[j] in run;
      var e :| e in SortSessions(s) && Kept(run[j], e, prm);
      assert e in multiset(Entries(s));
      EntriesFromSchedule(s, e);
      var k :| 0 <= k < |s| && s[k].day == e.day && e.session in s[k].sessions;
      assert k == i;
    }
  }

  /** Each optimized day lists its sessions in ascending order of lab start. */
  lemma OptimizeAscending(s: Schedule, prm: Params, i: nat)
    requires DistinctDays(s) && i < |s|
    ensures StartsAscending(OptimizeSchedule(s, prm)[i].sessions)
  {
    var st := InitStats(s);
    var es := SortSessions(s);
    SortedKnown(s);
    assert OptimizeRun(s, prm) == Refine(es, st, prm);
    SortedIsDayAscending(es);
    RefineAscending(es, st, prm);
    SessionsOnAscending(OptimizeRun(s, prm).0, s[i].day);
    OptimizeByDay(s, prm, i);
  }

  /**
   * When every assigned time lies inside its well-formed lab slot and no name
   * repeats within a session, no proctor ends above the weekly budget.
   */
  lemma OptimizeWithinBudget(s: Schedule, prm: Params)
    requires prm.maxHours >= 0.0
    requires forall d, x :: d in s && x in d.sessions ==> Consistent(x)
    ensures forall n :: n in OptimizeRun(s, prm).1 ==> OptimizeRun(s, prm).1[n].hours <= prm.maxHours
  {
    var st := InitStats(s);
    var es := SortSessions(s);
    SortedKnown(s);
    assert OptimizeRun(s, prm) == Refine(es, st, prm);
    assert forall n :: n in st ==> st[n].hours <= prm.maxHours;
    forall e | e in es ensures Consistent(e.session) {
      assert e in multiset(Entries(s));
      EntriesFromSchedule(s, e);
      var k :| 0 <= k < |s| && s[k].day == e.day && e.session in s[k].sessions;
      assert s[k] in s;
    }
    RefineWithinBudget(es, st, prm);
  }

  // ---------------------------------------------------------------------------
  // Hours in the returned schedule
  // ---------------------------------------------------------------------------

  /** Appending `e` to the bucket of its day adds its assignments' hours to the schedule's. */
  lemma {:induction false} PlaceHours(out: Schedule, e: Entry, n: string)
    requires exists i :: 0 <= i < |out| && out[i].day == e.day
    ensures ScheduleHours(Place(out, e), n) == ScheduleHours(out, n) + HoursIn(e.session.proctors, n)
  {
    if out[0].day == e.day {
      SessionHoursAppend(out[0].sessions, [e.session]);
      SingleSessionHours(e.session);
      assert Place(out, e)[1..] == out[1..];
    } else {
      var i :| 0 <= i < |out| && out[i].day == e.day;
      assert out[1..][i - 1].day == e.day;
      PlaceHours(out[1..], e, n);
      assert Place(out, e)[0] == out[0] && Place(out, e)[1..] == Place(out[1..], e);
    }
  }

  /** Placing every entry adds the entries' hours, as long as each entry's day is a bucket. */
  lemma {:induction false} PlaceAllHours(out: Schedule, es: seq<Entry>, n: string)
    requires forall e :: e in es ==> exists i :: 0 <= i < |out| && out[i].day == e.day
    ensures ScheduleHours(PlaceAll(out, es), n) == ScheduleHours(out, n) + EntryHours(es, n)
    decreases es
  {
    if es != [] {
      var out1 := Place(out, es[0]);
      assert es[0] in es;
      PlaceHours(out, es[0], n);
      forall e | e in es[1..] ensures exists i :: 0 <= i < |out1| && out1[i].day == e.day {
        var i :| 0 <= i < |out| && out[i].day == e.day;
        assert out1[i].day == e.day;
      }
      PlaceAllHours(out1, es[1..], n);
    }
  }

  lemma {:induction false} EmptyBucketsHours(s: Schedule, n: string)
    ensures ScheduleHours(EmptyBuckets(s), n) == 0.0
  {
    if s != [] {
      EmptyBucketsHours(s[1..], n);
      assert EmptyBuckets(s)[1..] == EmptyBuckets(s[1..]);
    }
  }

  /** A proctor never named in a list of assignments works no hours there. */
  lemma {:induction false} HoursInAbsent(xs: seq<Assignment>, n: string)
    requires forall a :: a in xs ==> a.name != n
    ensures HoursIn(xs, n) == 0.0
  {
    if xs != [] {
      HoursInAbsent(xs[1..], n);
    }
  }

  /** A proctor never named in a list of entries works no hours there. */
  lemma {:induction false} EntryHoursAbsent(es: seq<Entry>, n: string)
    requires forall e, a :: e in es && a in e.session.proctors ==> a.name != n
    ensures EntryHours(es, n) == 0.0
  {
    if es != [] {
      HoursInAbsent(es[0].session.proctors, n);
      EntryHoursAbsent(es[1..], n);
    }
  }

  /** The hours each proctor works in the returned schedule are the hours of the emitted sessions. */
  lemma OptimizeScheduleHours(s: Schedule, prm: Params, n: string)
    ensures ScheduleHours(OptimizeSchedule(s, prm), n) == EntryHours(OptimizeRun(s, prm).0, n)
  {
    var st := InitStats(s);
    var es := SortSessions(s);
    SortedKnown(s);
    var run := OptimizeRun(s, prm).0;
    assert run == Refine(es, st, prm).0;
    var out := EmptyBuckets(s);
    forall o | o in run ensures exists i :: 0 <= i < |out| && out[i].day == o.day {
      var e :| e in es && Kept(o, e, prm);
      assert e in multiset(Entries(s));
      EntriesFromSchedule(s, e);
      var k :| 0 <= k < |s| && s[k].day == e.day && e.session in s[k].sessions;
      assert out[k].day == o.day;
    }
    PlaceAllHours(out, run, n);
    EmptyBucketsHours(s, n);
  }

  /**
   * Under the same conditions as `OptimizeWithinBudget`, no proctor works
   * more than the weekly budget in the returned schedule.
   */
  lemma OptimizeScheduleWithinBudget(s: Schedule, prm: Params, n: string)
    requires prm.maxHours >= 0.0
    requires forall d, x :: d in s && x in d.sessions ==> Consistent(x)
    ensures ScheduleHours(OptimizeSchedule(s, prm), n) <= prm.maxHours
  {
    var st := InitStats(s);
    var es := SortSessions(s);
    SortedKnown(s);
    var run := OptimizeRun(s, prm);
    assert run == Refine(es, st, prm);
    OptimizeScheduleHours(s, prm, n);
    if n in st {
      OptimizeWithinBudget(s, prm);
      RefineHours(es, st, prm);
    } else {
      forall o, a | o in run.0 && a in o.session.proctors ensures a.name != n {
        var e :| e in es && Kept(o, e, prm);
        assert a in multiset(e.session.proctors);
      }
      EntryHoursAbsent(run.0, n);
    }
  }

  // ---------------------------------------------------------------------------
  // A second pass can change the result
  // ---------------------------------------------------------------------------

  /** Of two original proctors who both pass the budget check, both are kept, the better-ranked first. */
  lemma FindBestPair(sess: Session, st: StatsMap, prm: Params, x: Assignment, y: Assignment)
    requires sess.proctors == [x, y]
    requires InBounds(sess.labTime, prm)
    requires Admissible(st, DurationHours(sess.labTime), prm)(x)
    requires Admissible(st, DurationHours(sess.labTime), prm)(y)
    ensures FindBest(sess, st, prm) == if Outranks(st, x, y) then [x, y] else [y, x]
  {
    FilterPair(x, y, Admissible(st, DurationHours(sess.labTime), prm));
    SortPair(x, y, Rank(st));
  }

  /** When the run over a one-day schedule keeps a single session, that session is the whole day. */
  lemma OptimizeSingleEntry(s: Schedule, prm: Params, x: Session)
    requires |s| == 1
    requires OptimizeRun(s, prm).0 == [Entry(s[0].day, x)]
    ensures OptimizeSchedule(s, prm) == [DayPlan(s[0].day, [x])]
  {
    OptimizeByDay(s, prm, 0);
    assert SessionsOn([Entry(s[0].day, x)], s[0].day) == [x];
  }

  /**
   * `optimize_schedule` is not idempotent. The first pass counts C twice, ranks
   * C above B and drops the seven-hour session. The second pass counts each
   * name once, so the tie on score is broken by name and B comes first.
   */
  lemma OptimizeNotIdempotent()
    ensures var b := Assignment("B", false, TimeSlot(540, 720));
            var c := Assignment("C", false, TimeSlot(540, 720));
            var c' := Assignment("C", false, TimeSlot(780, 1200));
            var s := [DayPlan("Monday", [Session(TimeSlot(540, 720), [b, c]), Session(TimeSlot(780, 1200), [c'])])];
            && OptimizeSchedule(s, Defaults) == [DayPlan("Monday", [Session(TimeSlot(540, 720), [c, b])])]
            && OptimizeSchedule(OptimizeSchedule(s, Defaults), Defaults) == [DayPlan("Monday", [Session(TimeSlot(540, 720), [b, c])])]
            && OptimizeSchedule(OptimizeSchedule(s, Defaults), Defaults) != OptimizeSchedule(s, Defaults)
  {
    var b := Assignment("B", false, TimeSlot(540, 720));
    var c := Assignment("C", false, TimeSlot(540, 720));
    var c' := Assignment("C", false, TimeSlot(780, 1200));
    var s := [DayPlan("Monday", [Session(TimeSlot(540, 720), [b, c]), Session(TimeSlot(780, 1200), [c'])])];
    var once := [DayPlan("Monday", [Session(TimeSlot(540, 720), [c, b])])];
    FirstPassRun(s, b, c, c');
    OptimizeSingleEntry(s, Defaults, Session(TimeSlot(540, 720), [c, b]));
    SecondPassRun(once, b, c);
    OptimizeSingleEntry(once, Defaults, Session(TimeSlot(540, 720), [b, c]));
    assert once[0].sessions[0].proctors[0] != [b, c][0];
  }

  lemma OneDayAssignments(d: string, s1: Session, s2: Session)
    ensures Assignments([DayPlan(d, [s1, s2])]) == s1.proctors + s2.proctors
    ensures Assignments([DayPlan(d, [s1])]) == s1.proctors
  {
    assert [DayPlan(d, [s1, s2])][1..] == [] && [DayPlan(d, [s1])][1..] == [];
    assert [s1, s2][1..] == [s2] && [s2][1..] == [] && [s1][1..] == [];
    assert SessionAssignments([s2]) == s2.proctors + [];
    assert SessionAssignments([s1]) == s1.proctors + [];
  }

  /** Two entries of one day, the first starting earlier, are visited in that order. */
  lemma OneDayOrder(d: string, s1: Session, s2: Session)
    requires s1.labTime.start <= s2.labTime.start
    ensures SortSessions([DayPlan(d, [s1, s2])]) == [Entry(d, s1), Entry(d, s2)]
  {
    var e1 := Entry(d, s1);
    var e2 := Entry(d, s2);
    assert [DayPlan(d, [s1, s2])][1..] == [];
    assert Entries([DayPlan(d, [s1, s2])]) == [e1, e2] + [];
    assert [e1, e2] + [] == [e1, e2];
    assert [e1, e2][1..] == [e2];
    OneEntryOrder(e2);
    assert KeyLe(e1, e2);
    assert InsertBy(e1, [e2], KeyLe) == [e1, e2];
    assert SortBy([e1, e2], KeyLe) == InsertBy(e1, SortBy([e2], KeyLe), KeyLe);
  }

  lemma OneEntryOrder(e: Entry)
    ensures SortBy([e], KeyLe) == [e]
  {
    assert [e][1..] == [];
  }

  lemma OneSessionOrder(d: string, s1: Session)
    ensures SortSessions([DayPlan(d, [s1])]) == [Entry(d, s1)]
  {
    assert [DayPlan(d, [s1])][1..] == [];
    assert Entries([DayPlan(d, [s1])]) == [Entry(d, s1)] + [];
    assert [Entry(d, s1)] + [] == [Entry(d, s1)];
    OneEntryOrder(Entry(d, s1));
  }

  lemma FirstPassStats(b: Assignment, c: Assignment, c': Assignment)
    requires b.name == "B" && !b.star && c.name == "C" && !c.star && c'.name == "C"
    ensures TallyAll(map[], [b, c, c']) == map["B" := Stats(0.0, false, 1), "C" := Stats(0.0, false, 2)]
  {
    var st1 := map["B" := Stats(0.0, false, 1)];
    var st2 := st1["C" := Stats(0.0, false, 1)];
    var st3 := st1["C" := Stats(0.0, false, 2)];
    assert Tally(map[], b) == st1;
    assert Tally(st1, c) == st2;
    assert Tally(st2, c') == st3;
    assert [b, c, c'][1..] == [c, c'] && [c, c'][1..] == [c'] && [c'][1..] == [];
    assert TallyAll(st2, [c']) == st3;
    assert TallyAll(st1, [c, c']) == st3;
  }

  lemma SecondPassStats(b: Assignment, c: Assignment)
    requires b.name == "B" && !b.star && c.name == "C" && !c.star
    ensures TallyAll(map[], [c, b]) == map["C" := Stats(0.0, false, 1), "B" := Stats(0.0, false, 1)]
  {
    var st1 := map["C" := Stats(0.0, false, 1)];
    var st2 := st1["B" := Stats(0.0, false, 1)];
    assert Tally(map[], c) == st1;
    assert Tally(st1, b) == st2;
    assert [c, b][1..] == [b] && [b][1..] == [];
    assert TallyAll(st1, [b]) == st2;
  }

  lemma FirstPassRun(s: Schedule, b: Assignment, c: Assignment, c': Assignment)
    requires b == Assignment("B", false, TimeSlot(540, 720)) && c == Assignment("C", false, TimeSlot(540, 720))
    requires c' == Assignment("C", false, TimeSlot(780, 1200))
    requires s == [DayPlan("Monday", [Session(TimeSlot(540, 720), [b, c]), Session(TimeSlot(780, 1200), [c'])])]
    ensures OptimizeRun(s, Defaults).0 == [Entry("Monday", Session(TimeSlot(540, 720), [c, b]))]
  {
    var s1 := Session(TimeSlot(540, 720), [b, c]);
    var s2 := Session(TimeSlot(780, 1200), [c']);
    var e1 := Entry("Monday", s1);
    var e2 := Entry("Monday", s2);
    OneDayOrder("Monday", s1, s2);
    FirstPassInit(s, b, c, c');
    SortedKnown(s);
    FirstPassVisits(e1, e2, b, c, InitStats(s));
  }

  lemma FirstPassInit(s: Schedule, b: Assignment, c: Assignment, c': Assignment)
    requires b == Assignment("B", false, TimeSlot(540, 720)) && c == Assignment("C", false, TimeSlot(540, 720))
    requires c' == Assignment("C", false, TimeSlot(780, 1200))
    requires s == [DayPlan("Monday", [Session(TimeSlot(540, 720), [b, c]), Session(TimeSlot(780, 1200), [c'])])]
    ensures InitStats(s) == map["B" := Stats(0.0, false, 1), "C" := Stats(0.0, false, 2)]
  {
    OneDayAssignments("Monday", Session(TimeSlot(540, 720), [b, c]), Session(TimeSlot(780, 1200), [c']));
    assert [b, c] + [c'] == [b, c, c'];
    FirstPassStats(b, c, c');
  }

  lemma FirstPassVisits(e1: Entry, e2: Entry, b: Assignment, c: Assignment, st0: StatsMap)
    requires b == Assignment("B", false, TimeSlot(540, 720)) && c == Assignment("C", false, TimeSlot(540, 720))
    requires e1 == Entry("Monday", Session(TimeSlot(540, 720), [b, c]))
    requires e2.session.labTime == TimeSlot(780, 1200)
    requires st0 == map["B" := Stats(0.0, false, 1), "C" := Stats(0.0, false, 2)]
    requires Known([e1, e2], st0)
    ensures Refine([e1, e2], st0, Defaults).0 == [Entry("Monday", Session(TimeSlot(540, 720), [c, b]))]
  {
    FirstPassChoice(e1, b, c, st0);
    assert DurationHours(e2.session.labTime) == 7.0;
    RefinePair(e1, e2, st0, Defaults);
  }

  lemma FirstPassChoice(e1: Entry, b: Assignment, c: Assignment, st0: StatsMap)
    requires b == Assignment("B", false, TimeSlot(540, 720)) && c == Assignment("C", false, TimeSlot(540, 720))
    requires e1 == Entry("Monday", Session(TimeSlot(540, 720), [b, c]))
    requires st0 == map["B" := Stats(0.0, false, 1), "C" := Stats(0.0, false, 2)]
    ensures Visit(e1, st0, Defaults).0 == [Entry("Monday", Session(TimeSlot(540, 720), [c, b]))]
  {
    assert DurationHours(e1.session.labTime) == 3.0;
    FindBestPair(e1.session, st0, Defaults, b, c);
  }

  lemma SecondPassRun(s: Schedule, b: Assignment, c: Assignment)
    requires b == Assignment("B", false, TimeSlot(540, 720)) && c == Assignment("C", false, TimeSlot(540, 720))
    requires s == [DayPlan("Monday", [Session(TimeSlot(540, 720), [c, b])])]
    ensures OptimizeRun(s, Defaults).0 == [Entry("Monday", Session(TimeSlot(540, 720), [b, c]))]
  {
    var s1 := Session(TimeSlot(540, 720), [c, b]);
    var e1 := Entry("Monday", s1);
    OneSessionOrder("Monday", s1);
    OneDayAssignments("Monday", s1, s1);
    SecondPassStats(b, c);
    var st0 := InitStats(s);
    SecondPassVisit(e1, b, c, st0);
  }

  lemma SecondPassVisit(e1: Entry, b: Assignment, c: Assignment, st0: StatsMap)
    requires b == Assignment("B", false, TimeSlot(540, 720)) && c == Assignment("C", false, TimeSlot(540, 720))
    requires e1 == Entry("Monday", Session(TimeSlot(540, 720), [c, b]))
    requires st0 == map["C" := Stats(0.0, false, 1), "B" := Stats(0.0, false, 1)]
    requires Known([e1], st0)
    ensures Refine([e1], st0, Defaults).0 == [Entry("Monday", Session(TimeSlot(540, 720), [b, c]))]
  {
    assert DurationHours(e1.session.labTime) == 3.0;
    assert !StrLe("C", "B");
    FindBestPair(e1.session, st0, Defaults, c, b);
    RefineSingle(e1, st0, Defaults);
  }

  /** Of two entries where the second is outside the shift bounds, only the first step can emit. */
  lemma RefinePair(e1: Entry, e2: Entry, st: StatsMap, prm: Params)
    requires Known([e1, e2], st)
    requires !InBounds(e2.session.labTime, prm)
    ensures Refine([e1, e2], st, prm).0 == Visit(e1, st, prm).0
  {
    var v := Visit(e1, st, prm);
    assert [e1, e2][1..] == [e2];
    assert e2 in [e1, e2];
    VisitDropped(e2, v.1, prm);
    RefineSingle(e2, v.1, prm);
    assert v.0 + [] == v.0;
  }

  /** Visiting a single entry emits what its one step emits. */
  lemma RefineSingle(e: Entry, st: StatsMap, prm: Params)
    requires Known([e], st)
    ensures Refine([e], st, prm).0 == Visit(e, st, prm).0
  {
    var v := Visit(e, st, prm);
    assert [e][1..] == [];
    assert Refine([], v.1, prm).0 == [];
    assert v.0 + [] == v.0;
  }
}
