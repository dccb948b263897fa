/**
 * `SchedulePresenter.format_schedule` in src/SchedulePresenter.py: the
 * schedule rendered as one piece of text per day, session and assignment,
 * the pieces joined by newlines.
 *
 * Times are rendered as `HH:MM:SS`, the text Python gives for a whole-minute
 * `datetime.time`.
 */
module Presenter {
  import opened TimeSlots
  import opened Schedules

  // ---------------------------------------------------------------------------
  // Times
  // ---------------------------------------------------------------------------

  function DigitChar(d: nat): char
    requires d < 10
  {
    ('0' as int + d) as char
  }

  function DigitValue(c: char): int {
    c as int - '0' as int
  }

  predicate IsDigit(c: char) {
    '0' <= c <= '9'
  }

  function TwoDigits(n: nat): (r: string)
    requires n < 100
    ensures |r| == 2
    ensures IsDigit(r[0]) && IsDigit(r[1])
    ensures DigitValue(r[0]) * 10 + DigitValue(r[1]) == n
  {
    [DigitChar(n / 10), DigitChar(n % 10)]
  }

  /** A minute of the day as `HH:MM:SS`. */
  function TimeText(m: Minute): (r: string)
    ensures |r| == 8
    ensures IsDigit(r[0]) && IsDigit(r[1]) && IsDigit(r[3]) && IsDigit(r[4])
    ensures r[2] == ':' && r[5] == ':' && r[6..] == "00"
  {
    TwoDigits(m / 60) + ":" + TwoDigits(m % 60) + ":00"
  }

  /** Reads the minute of the day back from `HH:MM:SS`. */
  function ParseTime(t: string): int
    requires |t| == 8
  {
    (DigitValue(t[0]) * 10 + DigitValue(t[1])) * 60 + DigitValue(t[3]) * 10 + DigitValue(t[4])
  }

  /** The rendered time reads back as the minute it came from, so distinct times render differently. */
  lemma TimeTextRoundTrip(m: Minute, m': Minute)
    ensures ParseTime(TimeText(m)) == m
    ensures TimeText(m) == TimeText(m') ==> m == m'
  {
    var h := TwoDigits(m / 60);
    var mm := TwoDigits(m % 60);
    var t := TimeText(m);
    assert t[0] == h[0] && t[1] == h[1] && t[3] == mm[0] && t[4] == mm[1];
    var h' := TwoDigits(m' / 60);
    var mm' := TwoDigits(m' % 60);
    var t' := TimeText(m');
    assert t'[0] == h'[0] && t'[1] == h'[1] && t'[3] == mm'[0] && t'[4] == mm'[1];
  }

  // ---------------------------------------------------------------------------
  // Pieces
  // ---------------------------------------------------------------------------

  function DayHeader(day: string): string {
    "\n" + day + ":"
  }

  function SessionHeader(t: TimeSlot): string {
    "  " + TimeText(t.start) + " - " + TimeText(t.end) + ":"
  }

  /** One proctor's line: indented bullet, the name, then its designation in parentheses. */
  function AssignmentLine(a: Assignment): (r: string)
    ensures |r| >= 6 && (r[|r| - 6..] == "(Star)" <==> a.star)
    ensures r[..6] == "    - " && |r| >= 6 + |a.name| && r[6..6 + |a.name|] == a.name
    ensures !a.star ==> |r| >= 9 && r[|r| - 9..] == "(Regular)"
  {
    var r := "    - " + a.name + " (" + (if a.star then "Star" else "Regular") + ")";
    assert !a.star ==> r[|r| - 6..] == "gular)";
    r
  }

  /** Whether a proctor line carries the star designation. */
  predicate LineStar(line: string) {
    |line| >= 6 && line[|line| - 6..] == "(Star)"
  }

  /** The name on a proctor line: what lies between the bullet and the designation. */
  function LineName(line: string): string {
    var tail := if LineStar(line) then 7 else 10;
    if |line| >= 6 + tail then line[6..|line| - tail] else ""
  }

  /** A proctor line reads back as the name and designation it came from, so different proctors render differently. */
  lemma AssignmentLineRoundTrip(a: Assignment, b: Assignment)
    ensures LineName(AssignmentLine(a)) == a.name && LineStar(AssignmentLine(a)) == a.star
    ensures AssignmentLine(a) == AssignmentLine(b) ==> a.name == b.name && a.star == b.star
  {
    var r := AssignmentLine(a);
    var suffix := if a.star then " (Star)" else " (Regular)";
    assert r == "    - " + a.name + suffix;
    assert r[6..|r| - |suffix|] == a.name;
  }

  function AssignmentPieces(xs: seq<Assignment>): (r: seq<string>)
    ensures |r| == |xs|
    ensures forall i :: 0 <= i < |xs| ==> r[i] == AssignmentLine(xs[i])
  {
    if xs == [] then [] else [AssignmentLine(xs[0])] + AssignmentPieces(xs[1..])
  }

  function SessionPieces(ss: seq<Session>): seq<string> {
    if ss == [] then []
    else [SessionHeader(ss[0].labTime)] + AssignmentPieces(ss[0].proctors) + SessionPieces(ss[1..])
  }

  /** The pieces `format_schedule` collects, in order. */
  function Pieces(s: Schedule): seq<string> {
    if s == [] then [] else [DayHeader(s[0].day)] + SessionPieces(s[0].sessions) + Pieces(s[1..])
  }

  /** `sep.join(xs)`. */
  function Join(sep: string, xs: seq<string>): string {
    if xs == [] then "" else if |xs| == 1 then xs[0] else xs[0] + sep + Join(sep, xs[1..])
  }

  /**
   * `format_schedule`. Only an empty schedule renders as the empty string;
   * any other starts with the first day's newline.
   */
  function FormatSchedule(s: Schedule): (r: string)
    ensures r == "" <==> s == []
    ensures s != [] ==> r[0] == '\n'
  {
    PiecesJoinEmpty(s);
    Join("\n", Pieces(s))
  }

  lemma PiecesJoinEmpty(s: Schedule)
    ensures Join("\n", Pieces(s)) == "" <==> s == []
    ensures s != [] ==> Join("\n", Pieces(s))[0] == '\n'
  {
    if s != [] {
      var ps := Pieces(s);
      assert ps[0] == DayHeader(s[0].day);
      assert Join("\n", ps)[0] == ps[0][0];
    }
  }

  /**
   * The text of a non-empty schedule opens with the first day's header line,
   * and a day without sessions renders as that header alone.
   */
  lemma FormatStartsWithDay(s: Schedule)
    requires s != []
    ensures DayHeader(s[0].day) <= FormatSchedule(s)
    ensures |s| == 1 && s[0].sessions == [] ==> FormatSchedule(s) == "\n" + s[0].day + ":"
  {
    var ps := Pieces(s);
    assert ps[0] == DayHeader(s[0].day);
    if |ps| > 1 {
      assert Join("\n", ps) == ps[0] + "\n" + Join("\n", ps[1..]);
    }
    if |s| == 1 && s[0].sessions == [] {
      assert SessionPieces(s[0].sessions) == [] && Pieces(s[1..]) == [];
      assert ps == [DayHeader(s[0].day)];
    }
  }

  // ---------------------------------------------------------------------------
  // Structure of the output
  // ---------------------------------------------------------------------------

  function SessionCount(ss: seq<Session>): nat {
    if ss == [] then 0 else 1 + |ss[0].proctors| + SessionCount(ss[1..])
  }

  /** Number of sessions plus number of assignments over the whole schedule. */
  function EntryCount(s: Schedule): nat {
    if s == [] then 0 else SessionCount(s[0].sessions) + EntryCount(s[1..])
  }

  /** One piece per day, per session and per assignment. */
  lemma {:induction false} PiecesCount(s: Schedule)
    ensures |Pieces(s)| == |s| + EntryCount(s)
  {
    if s != [] {
      SessionPiecesCount(s[0].sessions);
      PiecesCount(s[1..]);
    }
  }

  lemma {:induction false} SessionPiecesCount(ss: seq<Session>)
    ensures |SessionPieces(ss)| == SessionCount(ss)
  {
    if ss != [] {
      SessionPiecesCount(ss[1..]);
    }
  }

  lemma {:induction false} PiecesAppend(a: Schedule, b: Schedule)
    ensures Pieces(a + b) == Pieces(a) + Pieces(b)
  {
    if a == [] {
      assert a + b == b;
    } else {
      assert (a + b)[1..] == a[1..] + b;
      PiecesAppend(a[1..], b);
    }
  }

  lemma {:induction false} JoinAppend(sep: string, a: seq<string>, b: seq<string>)
    requires a != [] && b != []
    ensures Join(sep, a + b) == Join(sep, a) + sep + Join(sep, b)
  {
    if |a| == 1 {
      assert (a + b)[1..] == b;
    } else {
      assert (a + b)[1..] == a[1..] + b;
      JoinAppend(sep, a[1..], b);
    }
  }

  /** Rendering two parts of a schedule one after the other is rendering each and joining them with a newline. */
  lemma FormatAppend(a: Schedule, b: Schedule)
    requires a != [] && b != []
    ensures FormatSchedule(a + b) == FormatSchedule(a) + "\n" + FormatSchedule(b)
  {
    PiecesAppend(a, b);
    assert Pieces(a) != [] && Pieces(b) != [];
    JoinAppend("\n", Pieces(a), Pieces(b));
  }

  // ---------------------------------------------------------------------------
  // Line structure
  // ---------------------------------------------------------------------------

  function Newlines(t: string): nat {
    if t == [] then 0 else (if t[0] == '\n' then 1 else 0) + Newlines(t[1..])
  }

  lemma {:induction false} NewlinesAppend(a: string, b: string)
    ensures Newlines(a + b) == Newlines(a) + Newlines(b)
  {
    if a == [] {
      assert a + b == b;
    } else {
      assert (a + b)[1..] == a[1..] + b;
      NewlinesAppend(a[1..], b);
    }
  }

  /** No day name or proctor name contains a newline. */
  predicate SingleLineNames(s: Schedule) {
    && (forall d :: d in s ==> Newlines(d.day) == 0)
    && (forall d, x, a :: d in s && x in d.sessions && a in x.proctors ==> Newlines(a.name) == 0)
  }

  /** Total newlines over a list of pieces. */
  function PieceNewlines(xs: seq<string>): nat {
    if xs == [] then 0 else Newlines(xs[0]) + PieceNewlines(xs[1..])
  }

  lemma {:induction false} PieceNewlinesAppend(a: seq<string>, b: seq<string>)
    ensures PieceNewlines(a + b) == PieceNewlines(a) + PieceNewlines(b)
  {
    if a == [] {
      assert a + b == b;
    } else {
      assert (a + b)[1..] == a[1..] + b;
      PieceNewlinesAppend(a[1..], b);
    }
  }

  /** Joining adds one newline between consecutive pieces. */
  lemma {:induction false} JoinNewlines(xs: seq<string>)
    requires xs != []
    ensures Newlines(Join("\n", xs)) == |xs| - 1 + PieceNewlines(xs)
  {
    if |xs| > 1 {
      JoinNewlines(xs[1..]);
      NewlinesAppend(xs[0], "\n");
      NewlinesAppend(xs[0] + "\n", Join("\n", xs[1..]));
      assert Newlines("\n") == 1;
    } else {
      assert xs[1..] == [];
    }
  }

  /** A text without a newline character has no newlines. */
  lemma {:induction false} NoNewlineChar(t: string)
    requires forall k :: 0 <= k < |t| ==> t[k] != '\n'
    ensures Newlines(t) == 0
  {
    if t != [] {
      NoNewlineChar(t[1..]);
    }
  }

  lemma TimeTextSingleLine(m: Minute)
    ensures Newlines(TimeText(m)) == 0
  {
    var t := TimeText(m);
    var h := TwoDigits(m / 60);
    var mm := TwoDigits(m % 60);
    assert t[0] == h[0] && t[1] == h[1] && t[3] == mm[0] && t[4] == mm[1];
    NoNewlineChar(t);
  }

  lemma AssignmentLineSingleLine(a: Assignment)
    requires Newlines(a.name) == 0
    ensures Newlines(AssignmentLine(a)) == 0
  {
    var tag := if a.star then "Star" else "Regular";
    NoNewlineChar("    - ");
    NoNewlineChar(" (");
    NoNewlineChar(tag);
    NoNewlineChar(")");
    NewlinesAppend("    - ", a.name);
    NewlinesAppend("    - " + a.name, " (");
    NewlinesAppend("    - " + a.name + " (", tag);
    NewlinesAppend("    - " + a.name + " (" + tag, ")");
  }

  lemma {:induction false} SessionPiecesSingleLine(ss: seq<Session>)
    requires forall x, a :: x in ss && a in x.proctors ==> Newlines(a.name) == 0
    ensures PieceNewlines(SessionPieces(ss)) == 0
  {
    if ss != [] {
      var x := ss[0];
      TimeTextSingleLine(x.labTime.start);
      TimeTextSingleLine(x.labTime.end);
      NewlinesAppend("  ", TimeText(x.labTime.start));
      NewlinesAppend("  " + TimeText(x.labTime.start), " - ");
      NewlinesAppend("  " + TimeText(x.labTime.start) + " - ", TimeText(x.labTime.end));
      NewlinesAppend("  " + TimeText(x.labTime.start) + " - " + TimeText(x.labTime.end), ":");
      AssignmentPiecesSingleLine(x.proctors);
      SessionPiecesSingleLine(ss[1..]);
      PieceNewlinesAppend([SessionHeader(x.labTime)], AssignmentPieces(x.proctors));
      PieceNewlinesAppend([SessionHeader(x.labTime)] + AssignmentPieces(x.proctors), SessionPieces(ss[1..]));
    }
  }

  lemma {:induction false} AssignmentPiecesSingleLine(xs: seq<Assignment>)
    requires forall a :: a in xs ==> Newlines(a.name) == 0
    ensures PieceNewlines(AssignmentPieces(xs)) == 0
  {
    if xs != [] {
      AssignmentLineSingleLine(xs[0]);
      AssignmentPiecesSingleLine(xs[1..]);
      assert AssignmentPieces(xs) == [AssignmentLine(xs[0])] + AssignmentPieces(xs[1..]);
    }
  }

  /**
   * With single-line names, the output has one line per piece plus one empty
   * line before each day: its newlines are the separators plus one per day.
   */
  lemma {:induction false} PiecesNewlines(s: Schedule)
    requires SingleLineNames(s)
    ensures PieceNewlines(Pieces(s)) == |s|
  {
    if s != [] {
      var d := s[0];
      NewlinesAppend("\n", d.day);
      NewlinesAppend("\n" + d.day, ":");
      assert Newlines("\n") == 1;
      SessionPiecesSingleLine(d.sessions);
      assert SingleLineNames(s[1..]);
      PiecesNewlines(s[1..]);
      PieceNewlinesAppend([DayHeader(d.day)], SessionPieces(d.sessions));
      PieceNewlinesAppend([DayHeader(d.day)] + SessionPieces(d.sessions), Pieces(s[1..]));
    }
  }

  /** The rendered text of a non-empty schedule with single-line names has `pieces - 1 + days` newlines. */
  lemma FormatLines(s: Schedule)
    requires s != [] && SingleLineNames(s)
    ensures Newlines(FormatSchedule(s)) == |s| + EntryCount(s) - 1 + |s|
  {
    PiecesCount(s);
    JoinNewlines(Pieces(s));
    PiecesNewlines(s);
  }
}
