# Proctor scheduling core, modelled in Dafny

The system assigns lab proctors to weekly lab sessions in two greedy passes,
then renders the result as text:

1. **`ScheduleGenerator`** (`src/Schedulegenrator.py`) walks the lab slots of
   every day in start order. It pushes one heap entry per (proctor,
   availability window) pair whose overlap with the slot fits the shift
   bounds and the weekly ceiling. It pops at most two entries, best score
   first, and adds each popped overlap to that proctor's weekly hours. The
   score is `1000·star + (ceiling − hours) + 0.1·window count`.
2. **`ScheduleOptimizer`** (`src/ScheduleOptimizer.py`) rebuilds statistics
   from the schedule it is given. For each name it keeps zero hours, the star
   flag of the first occurrence and the number of occurrences. It visits the
   sessions sorted by `(day name, start)`. It drops a session whose lab
   duration is outside the shift bounds. Otherwise it keeps at most two of
   the session's own proctors that fit the budget, ranked by
   `1000·star + 10·occurrences + (15 − hours)`, with ties broken by name.
3. **`SchedulePresenter.format_schedule`** (`src/SchedulePresenter.py`) joins
   one line per day, session and assignment with newlines.

Modules, one file each:

- `Wrappers` (`wrappers.dfy`): `Option`.
- `TimeSlots` (`time_slot.dfy`): times of day as minutes; durations, overlap.
- `Sorting` (`ordering.dfy`): stable insertion sort standing in for Python's
  `sorted` and for heap popping; `Filter`, `Take`; Python's string order.
- `Schedules` (`schedule.dfy`): the schedule records both passes produce;
  hours worked per proctor.
- `Generator` (`generator.dfy`), `Optimizer` (`optimizer.dfy`),
  `Presenter` (`presenter.dfy`): the three components.

Representation choices:

- Python dicts are sequences of `(key, value)` records in insertion order. A
  lookup takes the first match.
- The mutable hours and stats dicts are passed into every step and returned
  from it.
- A time is a whole minute of the day (`Minute`, 0..1439). A duration is
  `(end − start) mod 1440` minutes. This matches `timedelta.seconds` for an
  end before the start, which wraps past midnight. Hours are exact `real`s.
- Popping a heap until two entries are taken is a stable sort followed by
  taking the first two:
  - In the generator, entries with equal scores are ordered by a total
    preorder `tie` given as a parameter. Every property holds for every
    such order.
  - In the optimizer, equal scores are ordered by name, as in its
    `(-score, Name, proctor)` tuples.

## Model

| member | source | states |
|---|---|---|
| TimeSlots.DurationMinutes | src/Schedulegenrator.py:12-14 | The length is below one day; it is `end − start` for an ordered slot and wraps past midnight otherwise |
| TimeSlots.DurationHours | src/Schedulegenrator.py:12-14 | Hours lie in [0, 24); exactly minutes/60 for an ordered slot; `24 − (start − end)/60` for a reversed one |
| TimeSlots.GetOverlap | src/Schedulegenrator.py:16-25 | None exactly when the slots do not overlap (the `OverlapsWith` test); otherwise a slot inside both, well-formed when both are |
| TimeSlots.OverlapSymmetricClosed | src/Schedulegenrator.py:16-17 | Overlap is symmetric, slots that only touch overlap, and the overlap does not depend on argument order |
| TimeSlots.OverlapIsIntersection | src/Schedulegenrator.py:19-25 | A minute lies in the overlap iff it lies in both slots |
| TimeSlots.OverlapMeansCommonMinute | src/Schedulegenrator.py:16-17 | For well-formed slots, the overlap test holds iff the slots share a minute |
| TimeSlots.InsideIsShorter | src/Schedulegenrator.py:12-14 | A well-formed slot inside another is no longer than it |
| Sorting.SortBySorted | src/Schedulegenrator.py:64-65 | The output of the stable sort is ordered by the sort key |
| Sorting.SortByStable | src/ScheduleOptimizer.py:74-75 | Elements with equal keys keep their input order, as Python's `sorted` does |
| Sorting.TakeSortedIsTop | src/ScheduleOptimizer.py:114-116 | Popping n entries yields them in order, and none left behind ranks above a popped one |
| Sorting.StrLeTotalOrder | src/ScheduleOptimizer.py:74-75 | Python's string comparison used for the day key is total, antisymmetric and transitive |
| Generator.InitialHours | src/Schedulegenrator.py:52-55 | Every proctor's name maps to zero hours and no other name is present |
| Generator.WindowsOn | src/Schedulegenrator.py:93-97 | None iff the day is not an availability key; otherwise the windows stored under that day |
| Generator.StarBonus | src/Schedulegenrator.py:118-131 | Of `PriorityScore`: with equal hours and window count, a star outscores a non-star by exactly 1000 |
| Generator.WindowCandidates | src/Schedulegenrator.py:96-108 | One proctor's entries: each window whose overlap passes the bounds and budget yields an entry with that overlap and the proctor's score, and nothing else does |
| Generator.WindowCandidatesPerWindow | src/Schedulegenrator.py:96-108 | One entry per admitted window, duplicates included: the i-th entry carries the overlap of the i-th admitted window |
| Generator.ProctorCandidates | src/Schedulegenrator.py:92-108 | A proctor yields entries only from its windows for the day: none when the day is absent, and every admissible overlap otherwise |
| Generator.ProctorCandidatesPerWindow | src/Schedulegenrator.py:92-108 | A proctor pushes exactly one entry per admitted window of the day, in window order, and none when the day is absent |
| Generator.SessionCandidates | src/Schedulegenrator.py:90-108 | The session's heap holds exactly the admissible (proctor, overlap) pairs, each scored before the session |
| Generator.SessionCandidatesCount | src/Schedulegenrator.py:90-108 | The heap holds as many entries as there are admitted (proctor, window) pairs; nothing is de-duplicated |
| Generator.SessionCandidatesEmpty | src/Schedulegenrator.py:90-108 | The heap is empty iff no proctor has an admitted window for the slot |
| Generator.SelectBest | src/Schedulegenrator.py:136-140 | Pops min(2, entries) entries, all taken from the heap |
| Generator.SelectBestIsTopTwo | src/Schedulegenrator.py:139-140 | Popped entries come in non-increasing score order, and no entry left in the heap outscores a popped one |
| Generator.SelectBestCount | src/Schedulegenrator.py:139-140 | Popping never yields more entries of any kind than were pushed |
| Generator.StarPoppedFirst | src/Schedulegenrator.py:126-131 | A non-star is popped before a star only if their hours or window counts differ |
| Generator.Commit | src/Schedulegenrator.py:139-152 | One assignment per popped entry, in pop order, carrying its name, star flag and overlap; each proctor's hours grow by exactly its assignments' durations |
| Generator.CommitFits | src/Schedulegenrator.py:98-116 | Each assignment's time is an overlap of the lab slot with one of that proctor's windows, within the shift bounds and within budget before the session (the `IsValidAssignment` test) |
| Generator.AssignSession | src/Schedulegenrator.py:85-110 | min(2, admitted pairs) assignments, each fitting the session; for any tie order they are the popped top two entries, best first, none left behind scoring higher; hours grow by exactly the assigned durations |
| Generator.StarFirstScenario | src/Schedulegenrator.py:126-152 | A star and a non-star free for a 2.5-hour slot are both assigned, the star first, for every tie order, and each ends with 2.5 hours |
| Generator.SessionStep | src/Schedulegenrator.py:67-81 | A slot shorter than the minimum shift changes nothing; a slot is emitted iff it is long enough and some proctor has an admitted window; an emitted slot has one or two fitting assignments, and the hours record them |
| Generator.DayRun | src/Schedulegenrator.py:67-83 | Every emitted session is one of the day's slots and is staffed; sorted input gives ascending output; hours grow by the day's assignments |
| Generator.GenerateDay | src/Schedulegenrator.py:57-83 | A day's sessions come out in ascending start order, each one of that day's slots with one or two fitting assignments |
| Generator.WeekRun | src/Schedulegenrator.py:45-48 | One plan per day of the lab times, in order, each planned from that day's slots; hours accumulate across days |
| Generator.GenerateSchedule | src/Schedulegenrator.py:37-50 | The schedule has exactly the lab-time days in order, each ascending and covered; each proctor's final hours equal the hours it works in the schedule |
| Generator.CandidatesOnePerName | src/Schedulegenrator.py:92-108 | With unique names and at most one usable window per proctor, a session's heap holds at most one entry per name |
| Generator.CommitWithinBudget | src/Schedulegenrator.py:139-143 | Committing within-budget entries of distinct proctors keeps every proctor within the weekly ceiling |
| Generator.SessionStepWithinBudget | src/Schedulegenrator.py:67-81 | Under the one-window condition, a session step keeps every proctor within budget and repeats no name |
| Generator.GenerateWithinBudget | src/Schedulegenrator.py:112-116 | With unique names, a non-negative ceiling and one usable window per proctor and slot, nobody exceeds the weekly ceiling and no session names a proctor twice |
| Generator.DuplicateWindowOverrunsBudget | src/Schedulegenrator.py:139-143 | Without the one-window condition the promise fails: a proctor listing a 3-hour window twice is assigned twice to one session and ends at 6 hours against a 4-hour ceiling |
| Optimizer.TallyAllKeys | src/ScheduleOptimizer.py:47-57 | The tally gains an entry for exactly the names that occur |
| Optimizer.TallyAllCounts | src/ScheduleOptimizer.py:47-57 | Counts grow by the number of occurrences; a new name takes the star flag of its first occurrence |
| Optimizer.InitStats | src/ScheduleOptimizer.py:44-59 | A name has stats iff it is assigned somewhere; its stats are zero hours, the first occurrence's star flag and its occurrence count |
| Optimizer.EntriesFromSchedule | src/ScheduleOptimizer.py:64-71 | Every listed session is a session of its day in the schedule, and its assignments are the schedule's |
| Optimizer.SortSessions | src/ScheduleOptimizer.py:61-75 | The sorted list is a permutation of all (day, session) pairs, ordered by day name and then by start |
| Optimizer.SortSessionsStable | src/ScheduleOptimizer.py:74-75 | Sessions with equal (day, start) keys keep their schedule order |
| Optimizer.RankTotal | src/ScheduleOptimizer.py:109-110 | The heap order (score descending, then name ascending) is a total preorder |
| Optimizer.FindBest | src/ScheduleOptimizer.py:77-118 | At most two proctors, drawn from those that pass the budget check; nothing unless the lab duration is within the shift bounds |
| Optimizer.FindBestAdmits | src/ScheduleOptimizer.py:98-104 | Kept proctors are unchanged original assignments of the session, each within budget before it |
| Optimizer.FindBestDropped | src/ScheduleOptimizer.py:86-104 | Nothing is kept iff the duration is outside the bounds or every original proctor fails the budget check |
| Optimizer.FindBestIsTopTwo | src/ScheduleOptimizer.py:109-118 | min(2, admitted) proctors are kept, in rank order, and no admitted proctor left out outranks a kept one |
| Optimizer.OptimizerStarFirst | src/ScheduleOptimizer.py:120-132 | Of `Score`: a regular proctor is never kept ahead of a star proctor with the same hours and availability |
| Optimizer.FindBestPair | src/ScheduleOptimizer.py:98-116 | Two original proctors who both pass the budget check are both kept, the better-ranked first |
| Optimizer.UpdateHours | src/ScheduleOptimizer.py:134-142 | Each proctor's hours grow by the durations of its own assigned times; star flag, count and keys are unchanged |
| Optimizer.Visit | src/ScheduleOptimizer.py:21-40 | One loop step emits at most one session, kept from the visited one; only hours change, by the emitted durations |
| Optimizer.VisitDropped | src/ScheduleOptimizer.py:21-40 | A visited session emits nothing iff its duration is outside the bounds or every original proctor fails the budget check against the hours so far |
| Optimizer.Refine | src/ScheduleOptimizer.py:21-40 | Every emitted session is kept from some visited session; the stats keep their keys |
| Optimizer.RefineHours | src/ScheduleOptimizer.py:39-40 | Final hours are initial hours plus the emitted assigned durations; star flags and counts never change |
| Optimizer.RefineAscending | src/ScheduleOptimizer.py:21-37 | Emitting in visiting order keeps each day's sessions in ascending start order |
| Optimizer.VisitWithinBudget | src/ScheduleOptimizer.py:102-104 | For a session with distinct names and assigned times inside the lab slot, one step keeps every proctor within budget |
| Optimizer.RefineWithinBudget | src/ScheduleOptimizer.py:21-40 | The whole loop keeps every proctor within budget under the same condition |
| Optimizer.EmptyBuckets | src/ScheduleOptimizer.py:16 | One empty bucket per input day, in order |
| Optimizer.PlaceOne | src/ScheduleOptimizer.py:34-37 | With distinct days, a session is appended to its own day's bucket and no other |
| Optimizer.PlaceAllByDay | src/ScheduleOptimizer.py:21-37 | Each day's bucket ends up holding that day's emitted sessions, in visiting order |
| Optimizer.SortedKnown | src/ScheduleOptimizer.py:98-100 | Every name met by the loop has stats, so the stats lookup never misses |
| Optimizer.OptimizeSchedule | src/ScheduleOptimizer.py:6-42 | The result has exactly the input's days, in the same order |
| Optimizer.OptimizeNotIdempotent | src/ScheduleOptimizer.py:6-57 | Optimizing twice can differ from optimizing once. Statistics are recounted from each pass's own input, and the first pass drops sessions. So on a concrete two-session Monday, the second pass reorders the kept pair |
| Optimizer.OptimizeByDay | src/ScheduleOptimizer.py:6-42 | Each day holds exactly the emitted sessions of that day, in visiting order |
| Optimizer.OptimizeKeepsSessions | src/ScheduleOptimizer.py:21-37 | Every output session is an input session of the same day with the same lab slot, one or two of its original assignments, and a duration within the bounds |
| Optimizer.OptimizeAscending | src/ScheduleOptimizer.py:18-37 | Each output day lists its sessions in ascending start order |
| Optimizer.OptimizeWithinBudget | src/ScheduleOptimizer.py:102-104 | With consistent sessions and a non-negative budget, every final hours count is within the budget |
| Optimizer.OptimizeScheduleHours | src/ScheduleOptimizer.py:32-40 | The hours a proctor works in the returned schedule are those of the emitted sessions |
| Optimizer.OptimizeScheduleWithinBudget | src/ScheduleOptimizer.py:102-104 | Under the same conditions, no proctor works more than the budget in the returned schedule |
| Presenter.TimeText | src/SchedulePresenter.py:21 | A time renders as eight characters `HH:MM:00`: four decimal digits at positions 0, 1, 3 and 4, colons at 2 and 5, and `00` seconds |
| Presenter.TimeTextRoundTrip | src/SchedulePresenter.py:21 | A rendered time parses back to the minute it came from, so distinct times render differently |
| Presenter.AssignmentLine | src/SchedulePresenter.py:23 | The line is the bullet `    - `, then the proctor's name, then a designation: it ends in `(Star)` iff the proctor is a star, and in `(Regular)` otherwise |
| Presenter.AssignmentLineRoundTrip | src/SchedulePresenter.py:23 | Reading a line back gives the proctor's name and star flag, so different proctors render as different lines |
| Presenter.AssignmentPieces | src/SchedulePresenter.py:22-23 | One line per assignment, in order |
| Presenter.FormatSchedule | src/SchedulePresenter.py:12-25 | The text is empty iff the schedule has no days; otherwise it starts with a newline |
| Presenter.FormatStartsWithDay | src/SchedulePresenter.py:14-15 | A non-empty schedule's text opens with the first day's `"\n{day}:"` header; a day without sessions renders as that header alone |
| Presenter.PiecesCount | src/SchedulePresenter.py:14-23 | One piece per day, per session and per assignment |
| Presenter.FormatAppend | src/SchedulePresenter.py:14-25 | Rendering two schedules one after the other equals joining their renderings with a newline |
| Presenter.JoinNewlines | src/SchedulePresenter.py:25 | Joining adds exactly one newline between consecutive pieces |
| Presenter.FormatLines | src/SchedulePresenter.py:12-25 | With single-line names, the text has `pieces − 1 + days` newlines |

## Left out

- `main.py` and `ProctorSchedulingSystem.py` are not part of this model. They hold the user interface and the CSV reading that builds the inputs, including its `name`/`Name` key mismatch.
- Times carry no seconds. Inputs are `HH:MM`, so seconds are always zero and whole minutes lose nothing.
- Float arithmetic is not modelled. Hours and scores are exact reals, so a budget comparison that float rounding would tip either way is decided exactly.
- Generator.SelectBest: on equal scores the source compares `(score, proctor dict, overlap)` tuples, which raises `TypeError` in two cases. Two different dicts cannot be ordered. One proctor with two different overlaps reaches the `TimeSlot` comparison, and that dataclass defines no ordering. The model orders such ties by an arbitrary `tie` preorder instead of raising. Entries that are equal in all three parts compare equal and raise nothing.
- Optimizer.FindBest: two entries with the same name always have the same score, so the source goes on to compare their proctor dicts. When those dicts differ, it raises `TypeError`. The model keeps such entries in input order instead. When the dicts are equal, the comparison succeeds and nothing is raised, as in the model.
- Heap internals (sift order) are not modelled. Popping is described by its result: the best entries first.
- The `start_time` that `_sort_sessions` computes and never uses is left out.
- Presenter.TimeText renders a time as `HH:MM:SS`. That is `str(datetime.time)` for whole-minute times; microseconds never occur.
- The per-proctor `maxHours` field is carried in `Generator.Proctor` but never read, as in the source. Both passes use the global ceiling.
- The optimizer's day buckets: the dict's keys are distinct. The lemmas that read the result by day state this as `DistinctDays`.
- Optimizer.StatsOf reads a missing name as empty stats. The source would raise `KeyError` there, but `Optimizer.SortedKnown` shows the loop never meets a missing name.
- The optimizer's final stats are not part of the source's return value. They are exposed through `Optimizer.OptimizeRun` so the budget can be stated.
- The optimizer adds each kept proctor's own assigned-time duration to its hours, not the session's duration (src/ScheduleOptimizer.py:139-142). The model does the same.
- The optimizer's score uses the literal 15, not the `max_hours_per_week` argument (src/ScheduleOptimizer.py:130). The model does the same.
- Generator.GenerateWithinBudget requires at most one usable window per proctor and slot. Without it the source does not keep the budget, as `Generator.DuplicateWindowOverrunsBudget` shows.
