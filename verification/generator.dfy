/**
 * The first pass: `ScheduleGenerator` in src/Schedulegenrator.py.
 *
 * The per-proctor hours that the source keeps in `self.proctor_weekly_hours`
 * are passed into and returned from every step. The heap that ranks
 * candidates is modelled as a stable sort by descending score; among equal
 * scores the order is an arbitrary total preorder `tie`, given as a parameter,
 * since the source's heap has no defined order there.
 */
module Generator {
  import opened Wrappers
  import opened TimeSlots
  import opened Sorting
  import opened Schedules

  /** The constructor arguments of `ScheduleGenerator`, in hours. */
  datatype Config = Config(minShift: real, maxShift: real, maxWeekly: real)

  const Defaults: Config := Config(2.5, 4.0, 15.0)

  /** One `day: [windows]` entry of a proctor's availability dict. */
  datatype DayWindows = DayWindows(day: string, windows: seq<TimeSlot>)

  /** A proctor record as the generator reads it; `maxHours` is carried along but never read. */
  datatype Proctor = Proctor(name: string, star: bool, maxHours: real, availability: seq<DayWindows>)

  /** One `day: [lab slots]` entry of the `lab_times` dict. */
  datatype DayLabs = DayLabs(day: string, labs: seq<TimeSlot>)

  /** Cumulative assigned hours per proctor name. */
  type Hours = map<string, real>

  /** A heap entry: the proctor, the overlap it would work, and its priority score. */
  datatype Candidate = Candidate(proctor: Proctor, overlap: TimeSlot, score: real)

  /** `availability[day]`, or None when the day is not a key. */
  function WindowsOn(avail: seq<DayWindows>, day: string): (r: Option<seq<TimeSlot>>)
    ensures r.None? <==> forall i :: 0 <= i < |avail| ==> avail[i].day != day
    ensures r.Some? ==> DayWindows(day, r.value) in avail
  {
    if avail == [] then None
    else if avail[0].day == day then Some(avail[0].windows)
    else WindowsOn(avail[1..], day)
  }

  /** The windows a proctor offers on `day` (none when the day is absent). */
  function Windows(p: Proctor, day: string): seq<TimeSlot> {
    match WindowsOn(p.availability, day)
    case None => []
    case Some(ws) => ws
  }

  /** Number of availability windows over all days. */
  function WindowCount(avail: seq<DayWindows>): nat {
    if avail == [] then 0 else |avail[0].windows| + WindowCount(avail[1..])
  }

  function Names(ps: seq<Proctor>): set<string> {
    set p | p in ps :: p.name
  }

  /** `_initialize_proctor_hours`: every proctor starts the run at zero hours. */
  function InitialHours(ps: seq<Proctor>): (h: Hours)
    ensures forall p :: p in ps ==> p.name in h && h[p.name] == 0.0
    ensures forall n :: n in h ==> exists p :: p in ps && p.name == n
  {
    map n | n in Names(ps) :: 0.0
  }

  /** `_is_valid_assignment`: the shift bounds and the global weekly budget. */
  predicate IsValidAssignment(current: real, duration: real, cfg: Config) {
    && duration >= cfg.minShift
    && duration <= cfg.maxShift
    && current + duration <= cfg.maxWeekly
  }

  /** `_calculate_priority_score`. The overlap's duration is passed in the source but unused. */
  function PriorityScore(p: Proctor, h: Hours, cfg: Config): real
    requires p.name in h
  {
    (if p.star then 1000.0 else 0.0) + (cfg.maxWeekly - h[p.name]) + 0.1 * WindowCount(p.availability) as real
  }

  /** With equal hours and window count, a star outscores a non-star by exactly 1000. */
  lemma StarBonus(p: Proctor, q: Proctor, h: Hours, cfg: Config)
    requires p.name in h && q.name in h
    requires p.star && !q.star
    requires h[p.name] == h[q.name] && WindowCount(p.availability) == WindowCount(q.availability)
    ensures PriorityScore(p, h, cfg) == PriorityScore(q, h, cfg) + 1000.0
  {
  }

  /** Candidate `c` is a heap entry the loop of `_assign_proctors_to_session` may push. */
  ghost predicate Pushed(c: Candidate, day: string, lab: TimeSlot, h: Hours, cfg: Config) {
    && c.proctor.name in h
    && (exists w :: w in Windows(c.proctor, day) && GetOverlap(lab, w) == Some(c.overlap))
    && IsValidAssignment(h[c.proctor.name], DurationHours(c.overlap), cfg)
    && c.score == PriorityScore(c.proctor, h, cfg)
  }

  /** Window `w` of proctor `p` yields a heap entry for `lab`: it overlaps, and the overlap passes `_is_valid_assignment`. */
  predicate Admits(p: Proctor, lab: TimeSlot, w: TimeSlot, h: Hours, cfg: Config) {
    && p.name in h
    && GetOverlap(lab, w).Some?
    && IsValidAssignment(h[p.name], DurationHours(GetOverlap(lab, w).value), cfg)
  }

  function AdmitsAt(p: Proctor, lab: TimeSlot, h: Hours, cfg: Config): TimeSlot -> bool {
    (w: TimeSlot) => Admits(p, lab, w, h, cfg)
  }

  /** The entry a window admitted for `lab` yields. */
  function EntryFor(p: Proctor, lab: TimeSlot, w: TimeSlot, h: Hours, cfg: Config): Candidate
    requires Admits(p, lab, w, h, cfg)
  {
    Candidate(p, GetOverlap(lab, w).value, PriorityScore(p, h, cfg))
  }

  /** The heap entries pushed for one proctor's windows, in window order. */
  function WindowCandidates(p: Proctor, ws: seq<TimeSlot>, lab: TimeSlot, h: Hours, cfg: Config): (r: seq<Candidate>)
    requires p.name in h
    ensures forall c :: c in r ==> c.proctor == p && c.score == PriorityScore(p, h, cfg)
    ensures forall c :: c in r ==> exists w :: w in ws && GetOverlap(lab, w) == Some(c.overlap)
    ensures forall c :: c in r ==> IsValidAssignment(h[p.name], DurationHours(c.overlap), cfg)
    ensures forall w :: w in ws && GetOverlap(lab, w).Some?
                        && IsValidAssignment(h[p.name], DurationHours(GetOverlap(lab, w).value), cfg)
                        ==> Candidate(p, GetOverlap(lab, w).value, PriorityScore(p, h, cfg)) in r
  {
    if ws == [] then []
    else
      var rest := WindowCandidates(p, ws[1..], lab, h, cfg);
      match GetOverlap(lab, ws[0])
      case None => rest
      case Some(o) =>
        if IsValidAssignment(h[p.name], DurationHours(o), cfg)
        then [Candidate(p, o, PriorityScore(p, h, cfg))] + rest
        else rest
  }

  /**
   * One heap entry per admitted window, in window order, duplicates included:
   * the i-th entry comes from the i-th admitted window.
   */
  lemma {:induction false} WindowCandidatesPerWindow(p: Proctor, ws: seq<TimeSlot>, lab: TimeSlot, h: Hours, cfg: Config)
    requires p.name in h
    ensures var r := WindowCandidates(p, ws, lab, h, cfg);
            var adm := Filter(ws, AdmitsAt(p, lab, h, cfg));
            && |r| == |adm|
            && forall i :: 0 <= i < |r| ==> r[i] == EntryFor(p, lab, adm[i], h, cfg)
  {
    if ws != [] {
      var f := AdmitsAt(p, lab, h, cfg);
      var r := WindowCandidates(p, ws, lab, h, cfg);
      var rest := WindowCandidates(p, ws[1..], lab, h, cfg);
      var adm := Filter(ws, f);
      var adm' := Filter(ws[1..], f);
      WindowCandidatesPerWindow(p, ws[1..], lab, h, cfg);
      WindowCandidatesCons(p, ws, lab, h, cfg);
      assert adm == (if f(ws[0]) then [ws[0]] else []) + adm';
      if Admits(p, lab, ws[0], h, cfg) {
        forall i | 0 <= i < |r| ensures r[i] == EntryFor(p, lab, adm[i], h, cfg) {
          if i > 0 {
            assert r[i] == rest[i - 1] && adm[i] == adm'[i - 1];
          }
        }
      }
    }
  }

  /** The first window contributes its entry, if admitted, ahead of the rest's. */
  lemma WindowCandidatesCons(p: Proctor, ws: seq<TimeSlot>, lab: TimeSlot, h: Hours, cfg: Config)
    requires p.name in h && ws != []
    ensures WindowCandidates(p, ws, lab, h, cfg)
         == (if Admits(p, lab, ws[0], h, cfg) then [EntryFor(p, lab, ws[0], h, cfg)] else [])
            + WindowCandidates(p, ws[1..], lab, h, cfg)
  {
  }

  /** All heap entries for one session: every (proctor, window) pair whose overlap passes the checks. */
  function SessionCandidates(ps: seq<Proctor>, day: string, lab: TimeSlot, h: Hours, cfg: Config): (r: seq<Candidate>)
    requires forall p :: p in ps ==> p.name in h
    ensures forall c :: c in r ==> c.proctor in ps && Pushed(c, day, lab, h, cfg)
    ensures forall p, w :: p in ps && w in Windows(p, day) && GetOverlap(lab, w).Some?
                           && IsValidAssignment(h[p.name], DurationHours(GetOverlap(lab, w).value), cfg)
                           ==> Candidate(p, GetOverlap(lab, w).value, PriorityScore(p, h, cfg)) in r
  {
    if ps == [] then []
    else ProctorCandidates(ps[0], day, lab, h, cfg) + SessionCandidates(ps[1..], day, lab, h, cfg)
  }

  /** One proctor's entries: none when `day` is not in its availability. */
  function ProctorCandidates(p: Proctor, day: string, lab: TimeSlot, h: Hours, cfg: Config): (r: seq<Candidate>)
    requires p.name in h
    ensures forall c :: c in r ==> c.proctor == p && Pushed(c, day, lab, h, cfg)
    ensures forall w :: w in Windows(p, day) && GetOverlap(lab, w).Some?
                        && IsValidAssignment(h[p.name], DurationHours(GetOverlap(lab, w).value), cfg)
                        ==> Candidate(p, GetOverlap(lab, w).value, PriorityScore(p, h, cfg)) in r
  {
    match WindowsOn(p.availability, day)
    case None => []
    case Some(ws) => WindowCandidates(p, ws, lab, h, cfg)
  }

  /** One entry per admitted window of the day, in window order; none when the day is absent. */
  lemma ProctorCandidatesPerWindow(p: Proctor, day: string, lab: TimeSlot, h: Hours, cfg: Config)
    requires p.name in h
    ensures var r := ProctorCandidates(p, day, lab, h, cfg);
            var adm := Filter(Windows(p, day), AdmitsAt(p, lab, h, cfg));
            && |r| == |adm|
            && forall i :: 0 <= i < |r| ==> r[i] == EntryFor(p, lab, adm[i], h, cfg)
  {
    if WindowsOn(p.availability, day).Some? {
      WindowCandidatesPerWindow(p, Windows(p, day), lab, h, cfg);
    }
  }

  /** Number of admitted (proctor, window) pairs for `lab` on `day`. */
  function AdmittedPairs(ps: seq<Proctor>, day: string, lab: TimeSlot, h: Hours, cfg: Config): nat {
    if ps == [] then 0
    else |Filter(Windows(ps[0], day), AdmitsAt(ps[0], lab, h, cfg))| + AdmittedPairs(ps[1..], day, lab, h, cfg)
  }

  /** A session's heap holds one entry per admitted (proctor, window) pair, duplicates included. */
  lemma {:induction false} SessionCandidatesCount(ps: seq<Proctor>, day: string, lab: TimeSlot, h: Hours, cfg: Config)
    requires forall p :: p in ps ==> p.name in h
    ensures |SessionCandidates(ps, day, lab, h, cfg)| == AdmittedPairs(ps, day, lab, h, cfg)
  {
    if ps != [] {
      ProctorCandidatesPerWindow(ps[0], day, lab, h, cfg);
      SessionCandidatesCount(ps[1..], day, lab, h, cfg);
    }
  }

  /** No admitted pair is counted exactly when no proctor has an admitted window. */
  lemma NoPairNoEntry(ps: seq<Proctor>, day: string, lab: TimeSlot, h: Hours, cfg: Config)
    requires forall p :: p in ps ==> p.name in h
    ensures AdmittedPairs(ps, day, lab, h, cfg) == 0 <==>
              forall p, w :: p in ps && w in Windows(p, day) ==> !Admits(p, lab, w, h, cfg)
  {
    SessionCandidatesCount(ps, day, lab, h, cfg);
    SessionCandidatesEmpty(ps, day, lab, h, cfg);
  }

  /** A session's heap is empty exactly when no proctor has an admitted window. */
  lemma SessionCandidatesEmpty(ps: seq<Proctor>, day: string, lab: TimeSlot, h: Hours, cfg: Config)
    requires forall p :: p in ps ==> p.name in h
    ensures SessionCandidates(ps, day, lab, h, cfg) == [] <==>
              forall p, w :: p in ps && w in Windows(p, day) ==> !Admits(p, lab, w, h, cfg)
  {
    var r := SessionCandidates(ps, day, lab, h, cfg);
    if r != [] {
      assert r[0] in r;
      var w :| w in Windows(r[0].proctor, day) && GetOverlap(lab, w) == Some(r[0].overlap);
      assert Admits(r[0].proctor, lab, w, h, cfg);
    }
  }

  /** Heap order: higher score first, equal scores ordered by `tie`. */
  function HeapOrder(tie: (Candidate, Candidate) -> bool): (Candidate, Candidate) -> bool {
    (a: Candidate, b: Candidate) => a.score > b.score || (a.score == b.score && tie(a, b))
  }

  lemma HeapOrderTotal(tie: (Candidate, Candidate) -> bool)
    requires TotalPreorder(tie)
    ensures TotalPreorder(HeapOrder(tie))
  {
  }

  /** `_select_best_proctors`: pop at most two entries, best first. */
  function SelectBest(cands: seq<Candidate>, tie: (Candidate, Candidate) -> bool): (r: seq<Candidate>)
    ensures |r| == if |cands| < 2 then |cands| else 2
    ensures multiset(r) <= multiset(cands)
    ensures forall c :: c in r ==> c in cands
  {
    var sorted := SortBy(cands, HeapOrder(tie));
    TakeSplit(sorted, 2);
    var r := Take(sorted, 2);
    assert forall c :: c in r ==> c in multiset(cands);
    r
  }

  /** The selected entries come out in non-increasing score order, and none left behind outscores them. */
  lemma {:induction false} SelectBestIsTopTwo(cands: seq<Candidate>, tie: (Candidate, Candidate) -> bool)
    requires TotalPreorder(tie)
    ensures var r := SelectBest(cands, tie);
      && (forall i, j :: 0 <= i < j < |r| ==> r[i].score >= r[j].score)
      && (forall x, y :: x in multiset(cands) - multiset(r) && y in r ==> y.score >= x.score)
  {
    var le := HeapOrder(tie);
    HeapOrderTotal(tie);
    TakeSortedIsTop(cands, le, 2);
    var r := SelectBest(cands, tie);
    assert r == Take(SortBy(cands, le), 2);
    forall i, j | 0 <= i < j < |r|
      ensures r[i].score >= r[j].score
    {
      assert le(r[i], r[j]);
    }
    forall x, y | x in multiset(cands) - multiset(r) && y in r
      ensures y.score >= x.score
    {
      assert le(y, x);
    }
  }

  /** Popping keeps no more entries satisfying `f` than were pushed. */
  lemma SelectBestCount(cands: seq<Candidate>, tie: (Candidate, Candidate) -> bool, f: Candidate -> bool)
    ensures |Filter(SelectBest(cands, tie), f)| <= |Filter(cands, f)|
  {
    TakeSplit(SortBy(cands, HeapOrder(tie)), 2);
    SortByCount(cands, HeapOrder(tie), f);
  }

  /** A star is never popped after a non-star with the same hours and window count. */
  lemma {:induction false} StarPoppedFirst(cands: seq<Candidate>, tie: (Candidate, Candidate) -> bool,
                                           h: Hours, cfg: Config)
    requires TotalPreorder(tie)
    requires forall c :: c in cands ==> c.proctor.name in h && c.score == PriorityScore(c.proctor, h, cfg)
    ensures var r := SelectBest(cands, tie);
      forall i, j :: 0 <= i < j < |r| && !r[i].proctor.star && r[j].proctor.star ==>
        h[r[i].proctor.name] != h[r[j].proctor.name]
        || WindowCount(r[i].proctor.availability) != WindowCount(r[j].proctor.availability)
  {
    SelectBestIsTopTwo(cands, tie);
  }

  /** The record `_select_best_proctors` appends for a popped entry. */
  function AssignmentOf(c: Candidate): Assignment {
    Assignment(c.proctor.name, c.proctor.star, c.overlap)
  }

  /** Appends the popped entries in order, adding each overlap's duration to its proctor's hours. */
  function Commit(sel: seq<Candidate>, h: Hours): (r: (seq<Assignment>, Hours))
    requires forall c :: c in sel ==> c.proctor.name in h
    ensures |r.0| == |sel|
    ensures forall i :: 0 <= i < |sel| ==> r.0[i] == AssignmentOf(sel[i])
    ensures r.1.Keys == h.Keys
    ensures forall n :: n in h ==> r.1[n] == h[n] + HoursIn(r.0, n)
  {
    if sel == [] then ([], h)
    else
      var n := sel[0].proctor.name;
      var h1 := h[n := h[n] + DurationHours(sel[0].overlap)];
      var rest := Commit(sel[1..], h1);
      ([AssignmentOf(sel[0])] + rest.0, rest.1)
  }

  /** Assignment `a` of a session at `lab` on `day` comes from a real proctor window and fits the shift bounds. */
  ghost predicate Fits(a: Assignment, ps: seq<Proctor>, day: string, lab: TimeSlot, cfg: Config) {
    && cfg.minShift <= DurationHours(a.assignedTime) <= cfg.maxShift
    && lab.start <= a.assignedTime.start && a.assignedTime.end <= lab.end
    && exists p :: p in ps && p.name == a.name && p.star == a.star
                   && exists w :: w in Windows(p, day) && GetOverlap(lab, w) == Some(a.assignedTime)
  }

  /** Popped entries yield assignments that fit their session and were within budget when pushed. */
  lemma CommitFits(sel: seq<Candidate>, ps: seq<Proctor>, day: string, lab: TimeSlot, h: Hours, cfg: Config)
    requires forall c :: c in sel ==> c.proctor.name in h
    requires forall c :: c in sel ==> c.proctor in ps && Pushed(c, day, lab, h, cfg)
    ensures forall a :: a in Commit(sel, h).0 ==> Fits(a, ps, day, lab, cfg)
    ensures forall a :: a in Commit(sel, h).0 ==>
              a.name in h && h[a.name] + DurationHours(a.assignedTime) <= cfg.maxWeekly
  {
    var xs := Commit(sel, h).0;
    forall a | a in xs
      ensures Fits(a, ps, day, lab, cfg)
      ensures a.name in h && h[a.name] + DurationHours(a.assignedTime) <= cfg.maxWeekly
    {
      var i :| 0 <= i < |xs| && xs[i] == a;
      var c := sel[i];
      assert c in sel;
      var w :| w in Windows(c.proctor, day) && GetOverlap(lab, w) == Some(c.overlap);
    }
  }

  /** `_assign_proctors_to_session`, including the hours update done while popping. */
  function AssignSession(ps: seq<Proctor>, day: string, lab: TimeSlot, h: Hours, cfg: Config,
                         tie: (Candidate, Candidate) -> bool): (r: (seq<Assignment>, Hours))
    requires forall p :: p in ps ==> p.name in h
    ensures |r.0| <= 2
    ensures forall a :: a in r.0 ==> Fits(a, ps, day, lab, cfg)
    ensures forall a :: a in r.0 ==> a.name in h && h[a.name] + DurationHours(a.assignedTime) <= cfg.maxWeekly
    ensures r.1.Keys == h.Keys
    ensures forall n :: n in h ==> r.1[n] == h[n] + HoursIn(r.0, n)
    ensures |r.0| == if AdmittedPairs(ps, day, lab, h, cfg) < 2 then AdmittedPairs(ps, day, lab, h, cfg) else 2
    ensures TotalPreorder(tie) ==>
              exists sel :: && TopTwo(sel, SessionCandidates(ps, day, lab, h, cfg))
                            && |sel| == |r.0|
                            && forall i :: 0 <= i < |sel| ==> r.0[i] == AssignmentOf(sel[i])
  {
    var sel := SelectBest(SessionCandidates(ps, day, lab, h, cfg), tie);
    CommitFits(sel, ps, day, lab, h, cfg);
    SessionCandidatesCount(ps, day, lab, h, cfg);
    SelectBestTop(SessionCandidates(ps, day, lab, h, cfg), tie);
    Commit(sel, h)
  }

  /**
   * `sel` is what popping up to two entries off a heap holding `cands` yields:
   * as many as there are, up to two, best first, none left behind scoring higher.
   */
  ghost predicate TopTwo(sel: seq<Candidate>, cands: seq<Candidate>) {
    && |sel| == (if |cands| < 2 then |cands| else 2)
    && multiset(sel) <= multiset(cands)
    && (forall i, j :: 0 <= i < j < |sel| ==> sel[i].score >= sel[j].score)
    && (forall x, y :: x in multiset(cands) - multiset(sel) && y in sel ==> y.score >= x.score)
  }

  lemma SelectBestTop(cands: seq<Candidate>, tie: (Candidate, Candidate) -> bool)
    ensures TotalPreorder(tie) ==> TopTwo(SelectBest(cands, tie), cands)
  {
    if TotalPreorder(tie) {
      SelectBestIsTopTwo(cands, tie);
    }
  }

  /** Session `s`, emitted for `day`, is one of that day's lab slots with at most two fitting assignments. */
  ghost predicate Covers(s: Session, ps: seq<Proctor>, day: string, labs: seq<TimeSlot>, cfg: Config) {
    s.labTime in labs && Staffed(s, ps, day, cfg)
  }

  /** Session `s` is long enough and carries one or two assignments that fit it. */
  ghost predicate Staffed(s: Session, ps: seq<Proctor>, day: string, cfg: Config) {
    && DurationHours(s.labTime) >= cfg.minShift
    && 1 <= |s.proctors| <= 2
    && forall a :: a in s.proctors ==> Fits(a, ps, day, s.labTime, cfg)
  }

  /**
   * One iteration of the loop in `_generate_day_schedule`: a slot shorter than
   * the minimum shift is skipped, and a slot is emitted only when at least one
   * proctor is selected for it.
   */
  function SessionStep(ps: seq<Proctor>, day: string, lab: TimeSlot, h: Hours, cfg: Config,
                       tie: (Candidate, Candidate) -> bool): (r: (seq<Session>, Hours))
    requires forall p :: p in ps ==> p.name in h
    ensures |r.0| <= 1
    ensures forall s :: s in r.0 ==> s.labTime == lab && Staffed(s, ps, day, cfg)
    ensures DurationHours(lab) < cfg.minShift ==> r == ([], h)
    ensures r.1.Keys == h.Keys
    ensures forall n :: n in h ==> r.1[n] == h[n] + SessionHours(r.0, n)
    ensures r.0 == [] <==> DurationHours(lab) < cfg.minShift
                           || forall p, w :: p in ps && w in Windows(p, day) ==> !Admits(p, lab, w, h, cfg)
  {
    if DurationHours(lab) < cfg.minShift then ([], h)
    else
      var a := AssignSession(ps, day, lab, h, cfg, tie);
      NoPairNoEntry(ps, day, lab, h, cfg);
      SessionEmitted(lab, a, ps, day, h, cfg);
      if |a.0| > 0 then ([Session(lab, a.0)], a.1) else ([], a.1)
  }

  /** What `SessionStep` returns once the slot has been staffed (or left empty). */
  lemma SessionEmitted(lab: TimeSlot, a: (seq<Assignment>, Hours), ps: seq<Proctor>, day: string, h: Hours, cfg: Config)
    requires DurationHours(lab) >= cfg.minShift && |a.0| <= 2
    requires forall x :: x in a.0 ==> Fits(x, ps, day, lab, cfg)
    requires a.1.Keys == h.Keys
    requires forall n :: n in h ==> a.1[n] == h[n] + HoursIn(a.0, n)
    ensures var r: (seq<Session>, Hours) := if |a.0| > 0 then ([Session(lab, a.0)], a.1) else ([], a.1);
            && (forall s :: s in r.0 ==> s.labTime == lab && Staffed(s, ps, day, cfg))
            && (forall n :: n in h ==> r.1[n] == h[n] + SessionHours(r.0, n))
  {
    SingleSessionHours(Session(lab, a.0));
  }

  /** The loop of `_generate_day_schedule` over a day's (sorted) lab slots. */
  function DayRun(ps: seq<Proctor>, day: string, labs: seq<TimeSlot>, h: Hours, cfg: Config,
                  tie: (Candidate, Candidate) -> bool): (r: (seq<Session>, Hours))
    requires forall p :: p in ps ==> p.name in h
    ensures |r.0| <= |labs|
    ensures forall s :: s in r.0 ==> s.labTime in labs && Staffed(s, ps, day, cfg)
    ensures SortedBy(labs, StartLe) ==> StartsAscending(r.0)
    ensures r.1.Keys == h.Keys
    ensures forall n :: n in h ==> r.1[n] == h[n] + SessionHours(r.0, n)
  {
    if labs == [] then ([], h)
    else
      var a := SessionStep(ps, day, labs[0], h, cfg, tie);
      var rest := DayRun(ps, day, labs[1..], a.1, cfg, tie);
      DayRunJoin(ps, day, labs, h, cfg, a, rest);
      (a.0 + rest.0, rest.1)
  }

  /** The first slot's outcome followed by the rest of the day's keeps every `DayRun` property. */
  lemma DayRunJoin(ps: seq<Proctor>, day: string, labs: seq<TimeSlot>, h: Hours, cfg: Config,
                   a: (seq<Session>, Hours), rest: (seq<Session>, Hours))
    requires |labs| > 0
    requires |a.0| <= 1 && forall s :: s in a.0 ==> s.labTime == labs[0] && Staffed(s, ps, day, cfg)
    requires a.1.Keys == h.Keys && forall n :: n in h ==> a.1[n] == h[n] + SessionHours(a.0, n)
    requires |rest.0| <= |labs| - 1
    requires forall s :: s in rest.0 ==> s.labTime in labs[1..] && Staffed(s, ps, day, cfg)
    requires SortedBy(labs[1..], StartLe) ==> StartsAscending(rest.0)
    requires rest.1.Keys == a.1.Keys && forall n :: n in a.1 ==> rest.1[n] == a.1[n] + SessionHours(rest.0, n)
    ensures |a.0 + rest.0| <= |labs|
    ensures forall s :: s in a.0 + rest.0 ==> s.labTime in labs && Staffed(s, ps, day, cfg)
    ensures SortedBy(labs, StartLe) ==> StartsAscending(a.0 + rest.0)
    ensures rest.1.Keys == h.Keys
    ensures forall n :: n in h ==> rest.1[n] == h[n] + SessionHours(a.0 + rest.0, n)
  {
    SortedTail(labs);
    PrependAscending(a.0, rest.0);
    SessionHoursAppend(a.0, rest.0);
  }

  lemma SortedTail(labs: seq<TimeSlot>)
    requires |labs| > 0
    ensures SortedBy(labs, StartLe) ==> SortedBy(labs[1..], StartLe)
    ensures SortedBy(labs, StartLe) ==> forall x :: x in labs[1..] ==> labs[0].start <= x.start
  {
  }

  lemma StartLeTotal()
    ensures TotalPreorder(StartLe)
  {
  }

  /** `_generate_day_schedule`: sort the day's lab slots by start, then run the loop. */
  function GenerateDay(ps: seq<Proctor>, day: string, labs: seq<TimeSlot>, h: Hours, cfg: Config,
                       tie: (Candidate, Candidate) -> bool): (r: (seq<Session>, Hours))
    requires forall p :: p in ps ==> p.name in h
    ensures StartsAscending(r.0)
    ensures forall s :: s in r.0 ==> Covers(s, ps, day, labs, cfg)
    ensures r.1.Keys == h.Keys
    ensures forall n :: n in h ==> r.1[n] == h[n] + SessionHours(r.0, n)
  {
    var sorted := SortBy(labs, StartLe);
    StartLeTotal();
    SortBySorted(labs, StartLe);
    var r := DayRun(ps, day, sorted, h, cfg, tie);
    assert forall s :: s in r.0 ==> s.labTime in multiset(sorted);
    r
  }

  /** Day entry `plan` is what the generator makes of `dl`: same day, ascending slots, each covered. */
  ghost predicate DayPlanned(plan: DayPlan, ps: seq<Proctor>, dl: DayLabs, cfg: Config) {
    && plan.day == dl.day
    && StartsAscending(plan.sessions)
    && forall s :: s in plan.sessions ==> Covers(s, ps, dl.day, dl.labs, cfg)
  }

  /** The loop of `generate_schedule` over the `lab_times` dict, threading the hours. */
  function WeekRun(ps: seq<Proctor>, week: seq<DayLabs>, h: Hours, cfg: Config,
                   tie: (Candidate, Candidate) -> bool): (r: (Schedule, Hours))
    requires forall p :: p in ps ==> p.name in h
    ensures |r.0| == |week|
    ensures forall i :: 0 <= i < |week| ==> DayPlanned(r.0[i], ps, week[i], cfg)
    ensures r.1.Keys == h.Keys
    ensures forall n :: n in h ==> r.1[n] == h[n] + ScheduleHours(r.0, n)
  {
    if week == [] then ([], h)
    else
      var d := GenerateDay(ps, week[0].day, week[0].labs, h, cfg, tie);
      var rest := WeekRun(ps, week[1..], d.1, cfg, tie);
      WeekRunJoin(ps, week, h, cfg, DayPlan(week[0].day, d.0), d.1, rest);
      ([DayPlan(week[0].day, d.0)] + rest.0, rest.1)
  }

  /** The first day's plan followed by the rest of the week's keeps every `WeekRun` property. */
  lemma WeekRunJoin(ps: seq<Proctor>, week: seq<DayLabs>, h: Hours, cfg: Config,
                    plan: DayPlan, h1: Hours, rest: (Schedule, Hours))
    requires |week| > 0
    requires plan.day == week[0].day && StartsAscending(plan.sessions)
    requires forall s :: s in plan.sessions ==> Covers(s, ps, week[0].day, week[0].labs, cfg)
    requires h1.Keys == h.Keys && forall n :: n in h ==> h1[n] == h[n] + SessionHours(plan.sessions, n)
    requires |rest.0| == |week| - 1
    requires forall i :: 0 <= i < |week| - 1 ==> DayPlanned(rest.0[i], ps, week[1..][i], cfg)
    requires rest.1.Keys == h1.Keys && forall n :: n in h1 ==> rest.1[n] == h1[n] + ScheduleHours(rest.0, n)
    ensures |[plan] + rest.0| == |week|
    ensures forall i :: 0 <= i < |week| ==> DayPlanned(([plan] + rest.0)[i], ps, week[i], cfg)
    ensures rest.1.Keys == h.Keys
    ensures forall n :: n in h ==> rest.1[n] == h[n] + ScheduleHours([plan] + rest.0, n)
  {
    assert DayPlanned(plan, ps, week[0], cfg);
    forall i | 1 <= i < |week| ensures DayPlanned(([plan] + rest.0)[i], ps, week[i], cfg) {
      assert ([plan] + rest.0)[i] == rest.0[i - 1] && week[i] == week[1..][i - 1];
    }
    assert ([plan] + rest.0)[1..] == rest.0;
  }

  /**
   * `generate_schedule`: the schedule, keyed by exactly the days of `lab_times`
   * in the same order, and the hours each proctor ends the run with.
   */
  function GenerateSchedule(ps: seq<Proctor>, week: seq<DayLabs>, cfg: Config,
                            tie: (Candidate, Candidate) -> bool): (r: (Schedule, Hours))
    ensures |r.0| == |week|
    ensures forall i :: 0 <= i < |week| ==> r.0[i].day == week[i].day
    ensures forall i :: 0 <= i < |week| ==> StartsAscending(r.0[i].sessions)
    ensures forall i, s :: 0 <= i < |week| && s in r.0[i].sessions ==> Covers(s, ps, week[i].day, week[i].labs, cfg)
    ensures forall p :: p in ps ==> p.name in r.1 && r.1[p.name] == ScheduleHours(r.0, p.name)
  {
    WeekRun(ps, week, InitialHours(ps), cfg, tie)
  }

  // ---------------------------------------------------------------------------
  // Weekly budget. The budget check reads the hours before the session, and a
  // proctor gets one heap entry per admissible window, so the budget holds
  // only when no proctor has two admissible windows for one session.
  // ---------------------------------------------------------------------------

  /** Window `w` overlaps `lab` for a duration within the shift bounds. */
  predicate Usable(lab: TimeSlot, w: TimeSlot, cfg: Config) {
    GetOverlap(lab, w).Some?
    && cfg.minShift <= DurationHours(GetOverlap(lab, w).value) <= cfg.maxShift
  }

  function UsableAt(lab: TimeSlot, cfg: Config): TimeSlot -> bool {
    (w: TimeSlot) => Usable(lab, w, cfg)
  }

  function Named(n: string): Candidate -> bool {
    (c: Candidate) => c.proctor.name == n
  }

  predicate UniqueNames(ps: seq<Proctor>) {
    forall i, j :: 0 <= i < j < |ps| ==> ps[i].name != ps[j].name
  }

  /** Every proctor has at most one usable window for every lab slot of every day. */
  ghost predicate OneWindowPerSession(ps: seq<Proctor>, week: seq<DayLabs>, cfg: Config) {
    forall i, p, lab :: 0 <= i < |week| && p in ps && lab in week[i].labs
      ==> |Filter(Windows(p, week[i].day), UsableAt(lab, cfg))| <= 1
  }

  lemma {:induction false} WindowCandidatesAtMostUsable(p: Proctor, ws: seq<TimeSlot>, lab: TimeSlot, h: Hours, cfg: Config)
    requires p.name in h
    ensures |WindowCandidates(p, ws, lab, h, cfg)| <= |Filter(ws, UsableAt(lab, cfg))|
  {
    if ws != [] {
      WindowCandidatesAtMostUsable(p, ws[1..], lab, h, cfg);
    }
  }

  lemma FilterNone<T>(s: seq<T>, f: T -> bool)
    requires forall x :: x in s ==> !f(x)
    ensures Filter(s, f) == []
  {
  }

  /** A proctor with at most one usable window yields at most one heap entry, under its own name. */
  lemma ProctorCandidatesCount(p: Proctor, day: string, lab: TimeSlot, h: Hours, cfg: Config, n: string)
    requires p.name in h
    requires |Filter(Windows(p, day), UsableAt(lab, cfg))| <= 1
    ensures |Filter(ProctorCandidates(p, day, lab, h, cfg), Named(n))| <= if p.name == n then 1 else 0
  {
    var mine := ProctorCandidates(p, day, lab, h, cfg);
    if WindowsOn(p.availability, day).Some? {
      WindowCandidatesAtMostUsable(p, Windows(p, day), lab, h, cfg);
    }
    if p.name != n {
      FilterNone(mine, Named(n));
    }
  }

  /** With unique names and one usable window each, no name has two heap entries in a session. */
  lemma {:induction false} CandidatesOnePerName(ps: seq<Proctor>, day: string, lab: TimeSlot, h: Hours, cfg: Config, n: string)
    requires forall p :: p in ps ==> p.name in h
    requires UniqueNames(ps)
    requires forall p :: p in ps ==> |Filter(Windows(p, day), UsableAt(lab, cfg))| <= 1
    ensures |Filter(SessionCandidates(ps, day, lab, h, cfg), Named(n))| <= if n in Names(ps) then 1 else 0
  {
    if ps != [] {
      var mine := ProctorCandidates(ps[0], day, lab, h, cfg);
      var rest := SessionCandidates(ps[1..], day, lab, h, cfg);
      FilterAppend(mine, rest, Named(n));
      ProctorCandidatesCount(ps[0], day, lab, h, cfg, n);
      UniqueNamesTail(ps);
      CandidatesOnePerName(ps[1..], day, lab, h, cfg, n);
    }
  }

  /** Dropping the first proctor keeps names unique and removes that name. */
  lemma UniqueNamesTail(ps: seq<Proctor>)
    requires ps != [] && UniqueNames(ps)
    ensures UniqueNames(ps[1..])
    ensures ps[0].name !in Names(ps[1..])
    ensures Names(ps) == {ps[0].name} + Names(ps[1..])
  {
    forall i, j | 0 <= i < j < |ps[1..]| ensures ps[1..][i].name != ps[1..][j].name {
      assert ps[1..][i] == ps[i + 1] && ps[1..][j] == ps[j + 1];
    }
    forall q | q in ps[1..] ensures q.name != ps[0].name {
      var j :| 0 <= j < |ps[1..]| && ps[1..][j] == q;
      assert ps[j + 1] == q;
    }
    assert ps == [ps[0]] + ps[1..];
  }

  /** No two entries of `sel` belong to proctors with the same name. */
  predicate DistinctProctors(sel: seq<Candidate>) {
    forall i, j :: 0 <= i < j < |sel| ==> sel[i].proctor.name != sel[j].proctor.name
  }

  /** At most one entry per name is the same as pairwise distinct names. */
  lemma {:induction false} OnePerNameDistinct(sel: seq<Candidate>)
    requires forall n :: |Filter(sel, Named(n))| <= 1
    ensures DistinctProctors(sel)
  {
    if sel != [] {
      var n0 := sel[0].proctor.name;
      var tail := sel[1..];
      assert Filter(sel, Named(n0)) == [sel[0]] + Filter(tail, Named(n0));
      forall n ensures |Filter(tail, Named(n))| <= 1 {
        assert |Filter(sel, Named(n))| <= 1;
      }
      OnePerNameDistinct(tail);
      forall j | 0 < j < |sel| ensures sel[j].proctor.name != n0 {
        assert sel[j] == tail[j - 1];
      }
      forall i, j | 0 < i < j < |sel| ensures sel[i].proctor.name != sel[j].proctor.name {
        assert sel[i] == tail[i - 1] && sel[j] == tail[j - 1];
      }
    }
  }

  /** Committing entries of distinct proctors, each within budget, keeps every proctor within budget. */
  lemma {:induction false} CommitWithinBudget(sel: seq<Candidate>, h: Hours, cfg: Config)
    requires forall c :: c in sel ==> c.proctor.name in h
    requires forall c :: c in sel ==> IsValidAssignment(h[c.proctor.name], DurationHours(c.overlap), cfg)
    requires DistinctProctors(sel)
    requires forall n :: n in h ==> h[n] <= cfg.maxWeekly
    ensures forall n :: n in Commit(sel, h).1 ==> Commit(sel, h).1[n] <= cfg.maxWeekly
  {
    if sel != [] {
      var n0 := sel[0].proctor.name;
      var h1 := h[n0 := h[n0] + DurationHours(sel[0].overlap)];
      var tail := sel[1..];
      assert IsValidAssignment(h[n0], DurationHours(sel[0].overlap), cfg) by { assert sel[0] in sel; }
      assert forall n :: n in h1 ==> h1[n] <= cfg.maxWeekly;
      forall c | c in tail ensures c.proctor.name in h1 && IsValidAssignment(h1[c.proctor.name], DurationHours(c.overlap), cfg) {
        var j :| 0 <= j < |tail| && tail[j] == c;
        assert sel[j + 1] == c;
      }
      assert DistinctProctors(tail) by {
        forall i, j | 0 <= i < j < |tail| ensures tail[i].proctor.name != tail[j].proctor.name {
          assert tail[i] == sel[i + 1] && tail[j] == sel[j + 1];
        }
      }
      CommitWithinBudget(tail, h1, cfg);
    }
  }

  /** The assignments committed for distinct proctors carry distinct names. */
  lemma CommitNamesDistinct(sel: seq<Candidate>, h: Hours)
    requires forall c :: c in sel ==> c.proctor.name in h
    requires DistinctProctors(sel)
    ensures NamesDistinct(Commit(sel, h).0)
  {
  }

  /** One session step keeps every proctor within budget and repeats no name. */
  lemma SessionStepWithinBudget(ps: seq<Proctor>, day: string, lab: TimeSlot, h: Hours, cfg: Config,
                                tie: (Candidate, Candidate) -> bool)
    requires forall p :: p in ps ==> p.name in h
    requires UniqueNames(ps)
    requires forall p :: p in ps ==> |Filter(Windows(p, day), UsableAt(lab, cfg))| <= 1
    requires forall n :: n in h ==> h[n] <= cfg.maxWeekly
    ensures forall n :: n in SessionStep(ps, day, lab, h, cfg, tie).1 ==> SessionStep(ps, day, lab, h, cfg, tie).1[n] <= cfg.maxWeekly
    ensures forall s :: s in SessionStep(ps, day, lab, h, cfg, tie).0 ==> NamesDistinct(s.proctors)
  {
    if DurationHours(lab) >= cfg.minShift {
      var sel := SelectBest(SessionCandidates(ps, day, lab, h, cfg), tie);
      SelectedOnePerName(ps, day, lab, h, cfg, tie);
      OnePerNameDistinct(sel);
      CommitWithinBudget(sel, h, cfg);
      CommitNamesDistinct(sel, h);
    }
  }

  /** The (at most two) entries popped for a session carry distinct names. */
  lemma SelectedOnePerName(ps: seq<Proctor>, day: string, lab: TimeSlot, h: Hours, cfg: Config,
                           tie: (Candidate, Candidate) -> bool)
    requires forall p :: p in ps ==> p.name in h
    requires UniqueNames(ps)
    requires forall p :: p in ps ==> |Filter(Windows(p, day), UsableAt(lab, cfg))| <= 1
    ensures forall n :: |Filter(SelectBest(SessionCandidates(ps, day, lab, h, cfg), tie), Named(n))| <= 1
  {
    var cands := SessionCandidates(ps, day, lab, h, cfg);
    forall n ensures |Filter(SelectBest(cands, tie), Named(n))| <= 1 {
      CandidatesOnePerName(ps, day, lab, h, cfg, n);
      SelectBestCount(cands, tie, Named(n));
    }
  }

  lemma {:induction false} DayRunWithinBudget(ps: seq<Proctor>, day: string, labs: seq<TimeSlot>, h: Hours, cfg: Config,
                                              tie: (Candidate, Candidate) -> bool)
    requires forall p :: p in ps ==> p.name in h
    requires UniqueNames(ps)
    requires forall p, lab :: p in ps && lab in labs ==> |Filter(Windows(p, day), UsableAt(lab, cfg))| <= 1
    requires forall n :: n in h ==> h[n] <= cfg.maxWeekly
    ensures forall n :: n in DayRun(ps, day, labs, h, cfg, tie).1 ==> DayRun(ps, day, labs, h, cfg, tie).1[n] <= cfg.maxWeekly
    ensures forall s :: s in DayRun(ps, day, labs, h, cfg, tie).0 ==> NamesDistinct(s.proctors)
  {
    if labs != [] {
      var a := SessionStep(ps, day, labs[0], h, cfg, tie);
      SessionStepWithinBudget(ps, day, labs[0], h, cfg, tie);
      DayRunWithinBudget(ps, day, labs[1..], a.1, cfg, tie);
    }
  }

  lemma {:induction false} WeekRunWithinBudget(ps: seq<Proctor>, week: seq<DayLabs>, h: Hours, cfg: Config,
                                               tie: (Candidate, Candidate) -> bool)
    requires forall p :: p in ps ==> p.name in h
    requires UniqueNames(ps)
    requires OneWindowPerSession(ps, week, cfg)
    requires forall n :: n in h ==> h[n] <= cfg.maxWeekly
    ensures forall n :: n in WeekRun(ps, week, h, cfg, tie).1 ==> WeekRun(ps, week, h, cfg, tie).1[n] <= cfg.maxWeekly
    ensures forall i, s :: 0 <= i < |week| && s in WeekRun(ps, week, h, cfg, tie).0[i].sessions ==> NamesDistinct(s.proctors)
  {
    if week != [] {
      var sorted := SortBy(week[0].labs, StartLe);
      forall p, lab | p in ps && lab in sorted
        ensures |Filter(Windows(p, week[0].day), UsableAt(lab, cfg))| <= 1
      {
        assert lab in multiset(week[0].labs);
      }
      DayRunWithinBudget(ps, week[0].day, sorted, h, cfg, tie);
      var d := GenerateDay(ps, week[0].day, week[0].labs, h, cfg, tie);
      assert OneWindowPerSession(ps, week[1..], cfg) by {
        forall i, p, lab | 0 <= i < |week[1..]| && p in ps && lab in week[1..][i].labs
          ensures |Filter(Windows(p, week[1..][i].day), UsableAt(lab, cfg))| <= 1
        {
          assert week[1..][i] == week[i + 1];
        }
      }
      WeekRunWithinBudget(ps, week[1..], d.1, cfg, tie);
      var rest := WeekRun(ps, week[1..], d.1, cfg, tie);
      forall i, s | 0 <= i < |week| && s in WeekRun(ps, week, h, cfg, tie).0[i].sessions
        ensures NamesDistinct(s.proctors)
      {
        if i > 0 {
          assert WeekRun(ps, week, h, cfg, tie).0[i] == rest.0[i - 1];
        } else {
          assert WeekRun(ps, week, h, cfg, tie).0[0].sessions == d.0;
        }
      }
    }
  }

  /**
   * When names are unique, the weekly ceiling is not negative and no proctor
   * has two usable windows for one lab slot, a run repeats no name within a
   * session and leaves every proctor within the weekly ceiling.
   */
  lemma GenerateWithinBudget(ps: seq<Proctor>, week: seq<DayLabs>, cfg: Config,
                             tie: (Candidate, Candidate) -> bool)
    requires UniqueNames(ps)
    requires OneWindowPerSession(ps, week, cfg)
    requires cfg.maxWeekly >= 0.0
    ensures forall p :: p in ps ==> GenerateSchedule(ps, week, cfg, tie).1[p.name] <= cfg.maxWeekly
    ensures forall p :: p in ps ==> ScheduleHours(GenerateSchedule(ps, week, cfg, tie).0, p.name) <= cfg.maxWeekly
    ensures forall i, s :: 0 <= i < |week| && s in GenerateSchedule(ps, week, cfg, tie).0[i].sessions
                           ==> NamesDistinct(s.proctors)
  {
    WeekRunWithinBudget(ps, week, InitialHours(ps), cfg, tie);
  }

  /**
   * Without the one-window precondition neither promise holds: a proctor
   * listing the same window twice gets two heap entries for one session, both
   * are popped, and the hours exceed the weekly ceiling.
   */
  lemma DuplicateWindowOverrunsBudget(tie: (Candidate, Candidate) -> bool)
    ensures var lab := TimeSlot(540, 720);
            var alice := Proctor("Alice", false, 15.0, [DayWindows("Monday", [lab, lab])]);
            var cfg := Config(2.5, 4.0, 4.0);
            var r := GenerateSchedule([alice], [DayLabs("Monday", [lab])], cfg, tie);
            && |r.0| == 1 && |r.0[0].sessions| == 1
            && !NamesDistinct(r.0[0].sessions[0].proctors)
            && r.1["Alice"] == 6.0 > cfg.maxWeekly
  {
    var lab := TimeSlot(540, 720);
    var a := Assignment("Alice", false, lab);
    DuplicateWindowRun(tie);
    assert [a, a][0] == [a, a][1];
  }

  lemma DuplicateWindowRun(tie: (Candidate, Candidate) -> bool)
    ensures var lab := TimeSlot(540, 720);
            var alice := Proctor("Alice", false, 15.0, [DayWindows("Monday", [lab, lab])]);
            var a := Assignment("Alice", false, lab);
            GenerateSchedule([alice], [DayLabs("Monday", [lab])], Config(2.5, 4.0, 4.0), tie)
            == ([DayPlan("Monday", [Session(lab, [a, a])])], map["Alice" := 6.0])
  {
    var lab := TimeSlot(540, 720);
    var alice := Proctor("Alice", false, 15.0, [DayWindows("Monday", [lab, lab])]);
    var cfg := Config(2.5, 4.0, 4.0);
    var h := InitialHours([alice]);
    assert h == map["Alice" := 0.0];
    var a := Assignment("Alice", false, lab);
    var h2 := h["Alice" := 6.0];
    assert h2 == map["Alice" := 6.0];
    DuplicateWindowAssign(alice, lab, h, cfg, tie);
    DuplicateWindowDay(alice, lab, h, cfg, tie, [a, a], h2);
    DuplicateWindowWeek(alice, lab, h, cfg, tie, [Session(lab, [a, a])], h2);
  }

  lemma DuplicateWindowWeek(alice: Proctor, lab: TimeSlot, h: Hours, cfg: Config, tie: (Candidate, Candidate) -> bool,
                            ss: seq<Session>, h2: Hours)
    requires alice.name in h
    requires GenerateDay([alice], "Monday", [lab], h, cfg, tie) == (ss, h2)
    ensures WeekRun([alice], [DayLabs("Monday", [lab])], h, cfg, tie) == ([DayPlan("Monday", ss)], h2)
  {
    var week := [DayLabs("Monday", [lab])];
    assert week[1..] == [];
    assert WeekRun([alice], [], h2, cfg, tie) == ([], h2);
    assert [DayPlan("Monday", ss)] + [] == [DayPlan("Monday", ss)];
  }

  lemma DuplicateWindowAssign(alice: Proctor, lab: TimeSlot, h: Hours, cfg: Config, tie: (Candidate, Candidate) -> bool)
    requires lab == TimeSlot(540, 720)
    requires alice == Proctor("Alice", false, 15.0, [DayWindows("Monday", [lab, lab])])
    requires cfg == Config(2.5, 4.0, 4.0)
    requires h == map["Alice" := 0.0]
    ensures DurationHours(lab) == 3.0
    ensures AssignSession([alice], "Monday", lab, h, cfg, tie)
         == ([Assignment("Alice", false, lab), Assignment("Alice", false, lab)], h["Alice" := 6.0])
  {
    var c := Candidate(alice, lab, PriorityScore(alice, h, cfg));
    DuplicateWindowCandidates(c, lab, alice, h, cfg, tie);
    DuplicateWindowCommit(c, h);
  }

  lemma DuplicateWindowDay(alice: Proctor, lab: TimeSlot, h: Hours, cfg: Config, tie: (Candidate, Candidate) -> bool,
                           xs: seq<Assignment>, h2: Hours)
    requires alice.name in h
    requires DurationHours(lab) >= cfg.minShift
    requires AssignSession([alice], "Monday", lab, h, cfg, tie) == (xs, h2)
    requires |xs| > 0
    ensures GenerateDay([alice], "Monday", [lab], h, cfg, tie) == ([Session(lab, xs)], h2)
  {
    DuplicateWindowStep(alice, lab, h, cfg, tie, xs, h2);
    DayRunSingle([alice], "Monday", lab, h, cfg, tie);
    assert SortBy([lab], StartLe) == [lab];
  }

  /** A day with a single slot is one session step. */
  lemma DayRunSingle(ps: seq<Proctor>, day: string, lab: TimeSlot, h: Hours, cfg: Config,
                     tie: (Candidate, Candidate) -> bool)
    requires forall p :: p in ps ==> p.name in h
    ensures DayRun(ps, day, [lab], h, cfg, tie) == SessionStep(ps, day, lab, h, cfg, tie)
  {
    var a := SessionStep(ps, day, lab, h, cfg, tie);
    assert [lab][1..] == [];
    assert DayRun(ps, day, [], a.1, cfg, tie) == ([], a.1);
    assert a.0 + [] == a.0;
  }

  lemma DuplicateWindowStep(alice: Proctor, lab: TimeSlot, h: Hours, cfg: Config, tie: (Candidate, Candidate) -> bool,
                            xs: seq<Assignment>, h2: Hours)
    requires alice.name in h
    requires DurationHours(lab) >= cfg.minShift
    requires AssignSession([alice], "Monday", lab, h, cfg, tie) == (xs, h2)
    requires |xs| > 0
    ensures SessionStep([alice], "Monday", lab, h, cfg, tie) == ([Session(lab, xs)], h2)
  {
  }

  lemma DuplicateWindowCommit(c: Candidate, h: Hours)
    requires c.proctor.name == "Alice" && h == map["Alice" := 0.0] && DurationHours(c.overlap) == 3.0
    ensures Commit([c, c], h) == ([AssignmentOf(c), AssignmentOf(c)], h["Alice" := 6.0])
  {
    var a := AssignmentOf(c);
    var h1 := h["Alice" := 3.0];
    var h2 := h1["Alice" := 6.0];
    assert [c, c][1..] == [c] && [c][1..] == [];
    assert Commit([], h2) == ([], h2);
    assert [a] + [] == [a] && [a] + [a] == [a, a];
    assert Commit([c], h1) == ([a], h2);
    assert h2 == h["Alice" := 6.0];
  }

  lemma DuplicateWindowCandidates(c: Candidate, lab: TimeSlot, alice: Proctor, h: Hours, cfg: Config,
                                  tie: (Candidate, Candidate) -> bool)
    requires lab == TimeSlot(540, 720)
    requires alice == Proctor("Alice", false, 15.0, [DayWindows("Monday", [lab, lab])])
    requires cfg == Config(2.5, 4.0, 4.0)
    requires h == map["Alice" := 0.0]
    requires c == Candidate(alice, lab, PriorityScore(alice, h, cfg))
    ensures DurationHours(lab) == 3.0
    ensures SelectBest(SessionCandidates([alice], "Monday", lab, h, cfg), tie) == [c, c]
  {
    assert DurationHours(lab) == 3.0;
    assert GetOverlap(lab, lab) == Some(lab);
    assert [lab, lab][1..] == [lab] && [lab][1..] == [];
    assert WindowCandidates(alice, [lab], lab, h, cfg) == [c];
    assert WindowCandidates(alice, [lab, lab], lab, h, cfg) == [c, c];
    assert SessionCandidates([alice][1..], "Monday", lab, h, cfg) == [];
    assert SessionCandidates([alice], "Monday", lab, h, cfg) == [c, c];
    var le := HeapOrder(tie);
    assert InsertBy(c, [], le) == [c];
    assert InsertBy(c, [c], le) == [c, c];
    assert [c, c][1..] == [c] && [c][1..] == [];
    assert SortBy([c], le) == [c];
    assert SortBy([c, c], le) == [c, c];
  }

  /**
   * A star and a non-star, both free Monday 09:00-12:00, for a 09:00-11:30
   * slot under the default bounds: both are assigned, the star first, for
   * every tie order, and each ends the session with 2.5 hours.
   */
  lemma StarFirstScenario(tie: (Candidate, Candidate) -> bool)
    ensures var lab := TimeSlot(540, 690);
            var w := TimeSlot(540, 720);
            var alice := Proctor("Alice", true, 15.0, [DayWindows("Monday", [w])]);
            var bob := Proctor("Bob", false, 15.0, [DayWindows("Monday", [w])]);
            var h := map["Alice" := 0.0, "Bob" := 0.0];
            AssignSession([alice, bob], "Monday", lab, h, Defaults, tie)
            == ([Assignment("Alice", true, lab), Assignment("Bob", false, lab)], map["Alice" := 2.5, "Bob" := 2.5])
  {
    var lab := TimeSlot(540, 690);
    var w := TimeSlot(540, 720);
    var alice := Proctor("Alice", true, 15.0, [DayWindows("Monday", [w])]);
    var bob := Proctor("Bob", false, 15.0, [DayWindows("Monday", [w])]);
    var h := map["Alice" := 0.0, "Bob" := 0.0];
    var ca := Candidate(alice, lab, 1015.1);
    var cb := Candidate(bob, lab, 15.1);
    StarFirstCandidates(alice, bob, lab, w, h, ca, cb);
    StarFirstSelect(ca, cb, tie);
    StarFirstCommit(ca, cb, h);
  }

  lemma StarFirstCandidates(alice: Proctor, bob: Proctor, lab: TimeSlot, w: TimeSlot, h: Hours, ca: Candidate, cb: Candidate)
    requires lab == TimeSlot(540, 690) && w == TimeSlot(540, 720)
    requires alice == Proctor("Alice", true, 15.0, [DayWindows("Monday", [w])])
    requires bob == Proctor("Bob", false, 15.0, [DayWindows("Monday", [w])])
    requires h == map["Alice" := 0.0, "Bob" := 0.0]
    requires ca == Candidate(alice, lab, 1015.1) && cb == Candidate(bob, lab, 15.1)
    ensures SessionCandidates([alice, bob], "Monday", lab, h, Defaults) == [ca, cb]
  {
    assert DurationHours(lab) == 2.5;
    assert GetOverlap(lab, w) == Some(lab);
    assert [w][1..] == [];
    assert WindowCount(alice.availability) == 1 && WindowCount(bob.availability) == 1;
    assert h["Alice"] == 0.0 && h["Bob"] == 0.0;
    assert PriorityScore(alice, h, Defaults) == 1015.1 && PriorityScore(bob, h, Defaults) == 15.1;
    assert IsValidAssignment(0.0, 2.5, Defaults);
    assert WindowsOn(alice.availability, "Monday") == Some([w]) && WindowsOn(bob.availability, "Monday") == Some([w]);
    assert WindowCandidates(alice, [w], lab, h, Defaults) == [ca];
    assert WindowCandidates(bob, [w], lab, h, Defaults) == [cb];
    assert ProctorCandidates(alice, "Monday", lab, h, Defaults) == [ca];
    assert ProctorCandidates(bob, "Monday", lab, h, Defaults) == [cb];
    assert [alice, bob][1..] == [bob] && [bob][1..] == [];
    assert SessionCandidates([bob], "Monday", lab, h, Defaults) == [cb];
  }

  lemma StarFirstSelect(ca: Candidate, cb: Candidate, tie: (Candidate, Candidate) -> bool)
    requires ca.score > cb.score
    ensures SelectBest([ca, cb], tie) == [ca, cb]
  {
    var le := HeapOrder(tie);
    assert [ca, cb][1..] == [cb] && [cb][1..] == [];
    assert SortBy([cb], le) == [cb];
    assert SortBy([ca, cb], le) == InsertBy(ca, [cb], le) == [ca, cb];
    assert Take([ca, cb], 2) == [ca, cb];
  }

  lemma StarFirstCommit(ca: Candidate, cb: Candidate, h: Hours)
    requires ca.proctor.name == "Alice" && cb.proctor.name == "Bob"
    requires DurationHours(ca.overlap) == 2.5 && DurationHours(cb.overlap) == 2.5
    requires h == map["Alice" := 0.0, "Bob" := 0.0]
    ensures Commit([ca, cb], h) == ([AssignmentOf(ca), AssignmentOf(cb)], map["Alice" := 2.5, "Bob" := 2.5])
  {
    var h1 := h["Alice" := 2.5];
    var h2 := h1["Bob" := 2.5];
    assert [ca, cb][1..] == [cb] && [cb][1..] == [];
    assert h["Alice"] == 0.0 && h1["Bob"] == 0.0;
    assert Commit([], h2) == ([], h2);
    assert [AssignmentOf(cb)] + [] == [AssignmentOf(cb)];
    assert Commit([cb], h1) == ([AssignmentOf(cb)], h2);
    assert h1 == h["Alice" := h["Alice"] + DurationHours(ca.overlap)];
    assert [AssignmentOf(ca)] + [AssignmentOf(cb)] == [AssignmentOf(ca), AssignmentOf(cb)];
    assert h2 == map["Alice" := 2.5, "Bob" := 2.5];
  }
}
