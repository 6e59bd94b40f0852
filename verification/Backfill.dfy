/** The resumable backfill: date windows, a cursor per country, and what interrupted runs leave behind. */
module Backfill {
  import opened Common

  /** An inclusive range of days. */
  datatype Window = Window(from: int, to: int)

  // Windows

  function Windows(from: int, to: int, days: int): seq<Window>
    requires days > 0
    decreases 1 + to - from
  {
    if to < from then []
    else
      var end := Min(from + days - 1, to);
      [Window(from, end)] + Windows(end + 1, to, days)
  }

  /** The windows follow each other without gap or overlap, from one day to another. */
  ghost predicate Tiles(windows: seq<Window>, from: int, to: int) {
    if windows == [] then to + 1 == from
    else windows[0].from == from && from <= windows[0].to && Tiles(windows[1..], windows[0].to + 1, to)
  }

  /** Windows tile the range; all are full except perhaps the last. */
  lemma {:induction false} WindowsTile(from: int, to: int, days: int)
    requires days > 0 && from <= to + 1
    ensures Tiles(Windows(from, to, days), from, to)
    ensures forall i | 0 <= i < |Windows(from, to, days)| ::
              var w := Windows(from, to, days)[i];
              from <= w.from <= w.to <= to &&
              if i + 1 < |Windows(from, to, days)| then w.to - w.from + 1 == days
              else w.to == to && w.to - w.from < days
    decreases 1 + to - from
  {
    if from <= to {
      var end := Min(from + days - 1, to);
      WindowsTile(end + 1, to, days);
      assert Windows(from, to, days)[1..] == Windows(end + 1, to, days);
    }
  }

  /** Every day of a tiled range lies in exactly one window. */
  lemma {:induction false} TilesCoverOnce(windows: seq<Window>, from: int, to: int, day: int)
    requires Tiles(windows, from, to)
    ensures Hits(windows, day) == if from <= day <= to then 1 else 0
    ensures from <= to + 1
  {
    if windows != [] {
      TilesCoverOnce(windows[1..], windows[0].to + 1, to, day);
    }
  }

  function Hits(windows: seq<Window>, day: int): nat {
    if windows == [] then 0
    else Hits(windows[1..], day) + (if windows[0].from <= day <= windows[0].to then 1 else 0)
  }

  method DateWindows(from: int, to: int, days: int) returns (windows: Option<seq<Window>>)
    ensures windows.None? <==> to < from || days <= 0
    ensures windows.Some? ==> windows.value == Windows(from, to, days) && Tiles(windows.value, from, to)
  {
    if to < from || days <= 0 {
      return None;
    }
    var found := [];
    var cursor := from;
    while cursor <= to
      invariant from <= cursor <= to + 1
      invariant found + Windows(cursor, to, days) == Windows(from, to, days)
      decreases 1 + to - cursor
    {
      var end := Min(cursor + days - 1, to);
      Regroup(found, [Window(cursor, end)], Windows(end + 1, to, days));
      found := found + [Window(cursor, end)];
      cursor := end + 1;
    }
    WindowsTile(from, to, days);
    assert found + [] == found;
    windows := Some(found);
  }

  // One country

  /** The stored cursor of a country, and how often each day has been ingested completely. */
  datatype Progress = Progress(cursor: Option<int>, ingested: multiset<int>)

  /** How a window ends: committed, committed in part if errors are passed over, failed, or cut off. */
  datatype Outcome = Ingested | SomeRecordsFailed | Failed | Killed

  function Days(w: Window): multiset<int>
    decreases w.to - w.from + 1
  {
    if w.to < w.from then multiset{} else multiset{w.from} + Days(Window(w.from + 1, w.to))
  }

  lemma {:induction false} DaysCount(w: Window, day: int)
    ensures Days(w)[day] == if w.from <= day <= w.to then 1 else 0
    decreases w.to - w.from + 1
  {
    if w.from <= w.to {
      DaysCount(Window(w.from + 1, w.to), day);
    }
  }

  /** Data and cursor are committed together; a part with failed records counts as not ingested. */
  function Commit(p: Progress, w: Window, outcome: Outcome): Progress {
    Progress(Some(w.to), if outcome.Ingested? then p.ingested + Days(w) else p.ingested)
  }

  predicate Commits(outcome: Outcome, continueOnError: bool) {
    outcome.Ingested? || (outcome.SomeRecordsFailed? && continueOnError)
  }

  predicate Stops(outcome: Outcome, continueOnError: bool) {
    outcome.Killed? || (!outcome.Ingested? && !continueOnError)
  }

  /** The windows in order, one outcome each; a missing outcome is a cut-off. */
  function ProcessWindows(p: Progress, windows: seq<Window>, outcomes: seq<Outcome>, continueOnError: bool): Progress
    decreases |windows|
  {
    if windows == [] || outcomes == [] then p
    else
      var next := if Commits(outcomes[0], continueOnError) then Commit(p, windows[0], outcomes[0]) else p;
      if Stops(outcomes[0], continueOnError) then next
      else ProcessWindows(next, windows[1..], outcomes[1..], continueOnError)
  }

  /** A run ends at the first outcome that stops it, or where the outcomes break off. */
  predicate Halts(windows: seq<Window>, outcomes: seq<Outcome>, continueOnError: bool)
    decreases |windows|
  {
    windows != [] &&
    (outcomes == [] || Stops(outcomes[0], continueOnError) || Halts(windows[1..], outcomes[1..], continueOnError))
  }

  /** The arguments of one run; only the first day of the range is the same for all runs. */
  datatype Args = Args(to: int, windowDays: int, restart: bool, continueOnError: bool)

  function StartDay(p: Progress, from: int, restart: bool): int {
    if restart || p.cursor.None? then from else Max(from, p.cursor.value + 1)
  }

  predicate ReportsComplete(p: Progress, from: int, a: Args) {
    StartDay(p, from, a.restart) > a.to
  }

  function RunCountry(p: Progress, from: int, a: Args, outcomes: seq<Outcome>): Progress {
    if ReportsComplete(p, from, a) || a.windowDays <= 0 then p
    else ProcessWindows(p, Windows(StartDay(p, from, a.restart), a.to, a.windowDays), outcomes, a.continueOnError)
  }

  /** A failure in this country, or window sizes that are not positive, end the whole run. */
  predicate EndsRun(p: Progress, from: int, a: Args, outcomes: seq<Outcome>) {
    !ReportsComplete(p, from, a) &&
    (a.windowDays <= 0 ||
     Halts(Windows(StartDay(p, from, a.restart), a.to, a.windowDays), outcomes, a.continueOnError))
  }

  // No gap

  /** Every day from the start up to the cursor has been ingested. */
  ghost predicate Covered(p: Progress, from: int) {
    p.cursor.Some? ==> forall day | from <= day <= p.cursor.value :: p.ingested[day] >= 1
  }

  /** Exactly those days have been ingested, and each of them once. */
  ghost predicate Exact(p: Progress, from: int) {
    forall day :: p.ingested[day] == if p.cursor.Some? && from <= day <= p.cursor.value then 1 else 0
  }

  lemma {:induction false} ProcessKeepsCovered(
      p: Progress, windows: seq<Window>, outcomes: seq<Outcome>, from: int, start: int, to: int)
    requires Covered(p, from) && Tiles(windows, start, to)
    requires forall day | from <= day < start :: p.ingested[day] >= 1
    ensures Covered(ProcessWindows(p, windows, outcomes, false), from)
    decreases |windows|
  {
    if windows != [] && outcomes != [] && outcomes[0].Ingested? {
      var next := Commit(p, windows[0], outcomes[0]);
      forall day | from <= day <= windows[0].to ensures next.ingested[day] >= 1 {
        DaysCount(windows[0], day);
      }
      ProcessKeepsCovered(next, windows[1..], outcomes[1..], from, windows[0].to + 1, to);
    }
  }

  lemma {:induction false} ProcessKeepsExact(
      p: Progress, windows: seq<Window>, outcomes: seq<Outcome>, from: int, start: int, to: int)
    requires Exact(p, from) && Tiles(windows, start, to) && from <= start
    requires if p.cursor.Some? then start == Max(from, p.cursor.value + 1) else start == from
    ensures Exact(ProcessWindows(p, windows, outcomes, false), from)
    decreases |windows|
  {
    if windows != [] && outcomes != [] && outcomes[0].Ingested? {
      var next := Commit(p, windows[0], outcomes[0]);
      forall day ensures next.ingested[day] == if from <= day <= windows[0].to then 1 else 0 {
        DaysCount(windows[0], day);
      }
      ProcessKeepsExact(next, windows[1..], outcomes[1..], from, windows[0].to + 1, to);
    }
  }

  /** The progress after the first n runs, each cut off anywhere. */
  function AfterRuns(from: int, runs: seq<(Args, seq<Outcome>)>, n: nat): Progress
    requires n <= |runs|
  {
    if n == 0 then Progress(None, multiset{})
    else RunCountry(AfterRuns(from, runs, n - 1), from, runs[n - 1].0, runs[n - 1].1)
  }

  ghost predicate NeverContinues(runs: seq<(Args, seq<Outcome>)>) {
    forall i | 0 <= i < |runs| :: !runs[i].0.continueOnError
  }

  /** Interrupted and restarted runs leave no gap before the cursor. */
  lemma {:induction false} NoGapBeforeCursor(from: int, runs: seq<(Args, seq<Outcome>)>, n: nat)
    requires n <= |runs| && NeverContinues(runs)
    ensures Covered(AfterRuns(from, runs, n), from)
  {
    if n > 0 {
      var p, a := AfterRuns(from, runs, n - 1), runs[n - 1].0;
      NoGapBeforeCursor(from, runs, n - 1);
      if !ReportsComplete(p, from, a) && a.windowDays > 0 {
        var start := StartDay(p, from, a.restart);
        WindowsTile(start, a.to, a.windowDays);
        ProcessKeepsCovered(p, Windows(start, a.to, a.windowDays), runs[n - 1].1, from, start, a.to);
      }
    }
  }

  /** Without restarts every day up to the cursor is ingested exactly once, and no other day. */
  lemma {:induction false} NoDayTwice(from: int, runs: seq<(Args, seq<Outcome>)>, n: nat)
    requires n <= |runs| && NeverContinues(runs)
    requires forall i | 0 <= i < n :: !runs[i].0.restart
    ensures Exact(AfterRuns(from, runs, n), from)
  {
    if n > 0 {
      var p, a := AfterRuns(from, runs, n - 1), runs[n - 1].0;
      NoDayTwice(from, runs, n - 1);
      if !ReportsComplete(p, from, a) && a.windowDays > 0 {
        var start := StartDay(p, from, a.restart);
        WindowsTile(start, a.to, a.windowDays);
        ProcessKeepsExact(p, Windows(start, a.to, a.windowDays), runs[n - 1].1, from, start, a.to);
      }
    }
  }

  /** "Already complete" is reported only when every day of the range has been ingested. */
  lemma CompleteMeansComplete(from: int, runs: seq<(Args, seq<Outcome>)>, n: nat, a: Args, day: int)
    requires n <= |runs| && NeverContinues(runs)
    requires ReportsComplete(AfterRuns(from, runs, n), from, a) && from <= day <= a.to
    ensures AfterRuns(from, runs, n).ingested[day] >= 1
  {
    NoGapBeforeCursor(from, runs, n);
  }

  // Passing over errors

  /** Window i is committed, or some later one is. */
  ghost predicate CommittedFrom(windows: seq<Window>, outcomes: seq<Outcome>, i: nat) {
    exists j :: i <= j < |windows| && j < |outcomes| && Commits(outcomes[j], true) &&
      forall k | 0 <= k < j :: !outcomes[k].Killed?
  }

  /** No window that was not ingested comes at or before a committed one. */
  ghost predicate NothingPassedOver(windows: seq<Window>, outcomes: seq<Outcome>) {
    forall i | 0 <= i < |windows| && i < |outcomes| && CommittedFrom(windows, outcomes, i) :: outcomes[i].Ingested?
  }

  lemma CommittedFromTail(windows: seq<Window>, outcomes: seq<Outcome>, i: nat)
    requires windows != [] && outcomes != [] && !outcomes[0].Killed?
    ensures CommittedFrom(windows[1..], outcomes[1..], i) <==> CommittedFrom(windows, outcomes, i + 1)
  {
    if j :| i <= j < |windows[1..]| && j < |outcomes[1..]| && Commits(outcomes[1..][j], true) &&
            forall k | 0 <= k < j :: !outcomes[1..][k].Killed?
    {
      forall k | 0 <= k < j + 1 ensures !outcomes[k].Killed? {
        assert k > 0 ==> outcomes[1..][k - 1] == outcomes[k];
      }
      assert Commits(outcomes[j + 1], true);
    }
    if j :| i + 1 <= j < |windows| && j < |outcomes| && Commits(outcomes[j], true) &&
            forall k | 0 <= k < j :: !outcomes[k].Killed?
    {
      assert Commits(outcomes[1..][j - 1], true);
    }
  }

  /** A day before the windows keeps its count, and the cursor stays or moves to their start at least. */
  lemma {:induction false} ProcessKeepsEarlier(
      p: Progress, windows: seq<Window>, outcomes: seq<Outcome>, continueOnError: bool, start: int, to: int, day: int)
    requires Tiles(windows, start, to) && day < start
    ensures var q := ProcessWindows(p, windows, outcomes, continueOnError);
            q.ingested[day] == p.ingested[day] &&
            (q.cursor == p.cursor || (q.cursor.Some? && start <= q.cursor.value))
    decreases |windows|
  {
    if windows != [] && outcomes != [] {
      DaysCount(windows[0], day);
      var next := if Commits(outcomes[0], continueOnError) then Commit(p, windows[0], outcomes[0]) else p;
      if !Stops(outcomes[0], continueOnError) {
        ProcessKeepsEarlier(next, windows[1..], outcomes[1..], continueOnError, windows[0].to + 1, to, day);
      }
    }
  }

  /** The cursor moves exactly when some window is committed, and then past the start. */
  lemma {:induction false} CursorMovesIffCommitted(
      p: Progress, windows: seq<Window>, outcomes: seq<Outcome>, start: int, to: int)
    requires Tiles(windows, start, to)
    ensures var q := ProcessWindows(p, windows, outcomes, true);
            if CommittedFrom(windows, outcomes, 0) then q.cursor.Some? && start <= q.cursor.value
            else q.cursor == p.cursor
    decreases |windows|
  {
    if windows != [] && outcomes != [] {
      var next := if Commits(outcomes[0], true) then Commit(p, windows[0], outcomes[0]) else p;
      if Stops(outcomes[0], true) {
        assert !CommittedFrom(windows, outcomes, 0);
      } else {
        CommittedFromTail(windows, outcomes, 0);
        CursorMovesIffCommitted(next, windows[1..], outcomes[1..], windows[0].to + 1, to);
        if Commits(outcomes[0], true) {
          assert CommittedFrom(windows, outcomes, 0);
        } else {
          assert CommittedFrom(windows, outcomes, 0) <==> CommittedFrom(windows, outcomes, 1);
        }
      }
    }
  }

  /**
   * With errors passed over, a run leaves no gap exactly when nothing that failed, wholly or in
   * part, comes at or before a window that was committed.
   */
  lemma {:induction false} ContinuingIsSafeIff(
      p: Progress, windows: seq<Window>, outcomes: seq<Outcome>, from: int, start: int, to: int)
    requires Tiles(windows, start, to) && from <= start
    requires forall day | from <= day < start :: p.ingested[day] >= 1
    requires forall day | start <= day :: p.ingested[day] == 0
    requires p.cursor.Some? ==> p.cursor.value < start
    ensures Covered(ProcessWindows(p, windows, outcomes, true), from) <==> NothingPassedOver(windows, outcomes)
    decreases |windows|
  {
    var q := ProcessWindows(p, windows, outcomes, true);
    if windows != [] && outcomes != [] && !outcomes[0].Killed? {
      var w := windows[0];
      var next := if Commits(outcomes[0], true) then Commit(p, w, outcomes[0]) else p;
      CursorMovesIffCommitted(p, windows, outcomes, start, to);
      forall i: nat ensures CommittedFrom(windows[1..], outcomes[1..], i) <==> CommittedFrom(windows, outcomes, i + 1) {
        CommittedFromTail(windows, outcomes, i);
      }
      if outcomes[0].Ingested? {
        forall day ensures next.ingested[day] == p.ingested[day] + if w.from <= day <= w.to then 1 else 0 {
          DaysCount(w, day);
        }
        ContinuingIsSafeIff(next, windows[1..], outcomes[1..], from, w.to + 1, to);
        NothingPassedOverTail(windows, outcomes);
      } else {
        ProcessKeepsEarlier(next, windows[1..], outcomes[1..], true, w.to + 1, to, start);
        assert q.ingested[start] == 0;
        if !CommittedFrom(windows, outcomes, 0) {
          assert q.cursor == p.cursor;
          NothingCommitted(windows, outcomes);
          CoveredBefore(p, windows, outcomes, from, start, to);
        }
      }
    } else {
      NothingCommitted(windows, outcomes);
    }
  }

  lemma NothingPassedOverTail(windows: seq<Window>, outcomes: seq<Outcome>)
    requires windows != [] && outcomes != [] && outcomes[0].Ingested?
    ensures NothingPassedOver(windows, outcomes) <==> NothingPassedOver(windows[1..], outcomes[1..])
  {
    forall i: nat ensures CommittedFrom(windows[1..], outcomes[1..], i) <==> CommittedFrom(windows, outcomes, i + 1) {
      CommittedFromTail(windows, outcomes, i);
    }
    hide CommittedFrom;
    if NothingPassedOver(windows, outcomes) {
      forall i | 0 <= i < |windows[1..]| && i < |outcomes[1..]| && CommittedFrom(windows[1..], outcomes[1..], i)
        ensures outcomes[1..][i].Ingested?
      {
        assert CommittedFrom(windows, outcomes, i + 1);
      }
    }
    if NothingPassedOver(windows[1..], outcomes[1..]) {
      forall i | 0 <= i < |windows| && i < |outcomes| && CommittedFrom(windows, outcomes, i)
        ensures outcomes[i].Ingested?
      {
        if i > 0 {
          assert CommittedFrom(windows[1..], outcomes[1..], i - 1);
          assert outcomes[1..][i - 1] == outcomes[i];
        }
      }
    }
  }

  lemma CommittedEarlier(windows: seq<Window>, outcomes: seq<Outcome>, i: nat)
    requires CommittedFrom(windows, outcomes, i)
    ensures CommittedFrom(windows, outcomes, 0)
  {
    var j :| i <= j < |windows| && j < |outcomes| && Commits(outcomes[j], true) &&
             forall k | 0 <= k < j :: !outcomes[k].Killed?;
    assert 0 <= j;
  }

  lemma NothingCommitted(windows: seq<Window>, outcomes: seq<Outcome>)
    requires !CommittedFrom(windows, outcomes, 0)
    ensures NothingPassedOver(windows, outcomes)
  {
    forall i: nat ensures !CommittedFrom(windows, outcomes, i) {
      if CommittedFrom(windows, outcomes, i) {
        CommittedEarlier(windows, outcomes, i);
      }
    }
  }

  lemma CoveredBefore(p: Progress, windows: seq<Window>, outcomes: seq<Outcome>, from: int, start: int, to: int)
    requires Tiles(windows, start, to) && !CommittedFrom(windows, outcomes, 0)
    requires forall day | from <= day < start :: p.ingested[day] >= 1
    requires p.cursor.Some? ==> p.cursor.value < start
    ensures Covered(ProcessWindows(p, windows, outcomes, true), from)
  {
    CursorMovesIffCommitted(p, windows, outcomes, start, to);
    var q := ProcessWindows(p, windows, outcomes, true);
    forall day | from <= day < start ensures q.ingested[day] >= 1 {
      ProcessKeepsEarlier(p, windows, outcomes, true, start, to, day);
    }
  }

  // Sequences of runs that may pass over errors

  /** No day after the cursor has been ingested. */
  ghost predicate Fresh(p: Progress) {
    forall day | p.cursor.None? || p.cursor.value < day :: p.ingested[day] == 0
  }

  lemma {:induction false} ProcessKeepsFresh(
      p: Progress, windows: seq<Window>, outcomes: seq<Outcome>, continueOnError: bool, start: int, to: int)
    requires Tiles(windows, start, to) && Fresh(p) && (p.cursor.Some? ==> p.cursor.value < start)
    ensures Fresh(ProcessWindows(p, windows, outcomes, continueOnError))
    decreases |windows|
  {
    if windows != [] && outcomes != [] {
      var w := windows[0];
      var next := if Commits(outcomes[0], continueOnError) then Commit(p, w, outcomes[0]) else p;
      forall day | next.cursor.None? || next.cursor.value < day ensures next.ingested[day] == 0 {
        DaysCount(w, day);
      }
      if !Stops(outcomes[0], continueOnError) {
        ProcessKeepsFresh(next, windows[1..], outcomes[1..], continueOnError, w.to + 1, to);
      }
    }
  }

  /** The run fetches something. */
  predicate Fetches(p: Progress, from: int, a: Args) { !ReportsComplete(p, from, a) && a.windowDays > 0 }

  lemma {:induction false} RunsStayFresh(from: int, runs: seq<(Args, seq<Outcome>)>, n: nat)
    requires n <= |runs| && forall i | 0 <= i < n :: !runs[i].0.restart
    ensures Fresh(AfterRuns(from, runs, n))
  {
    if n > 0 {
      var p, a := AfterRuns(from, runs, n - 1), runs[n - 1].0;
      RunsStayFresh(from, runs, n - 1);
      if Fetches(p, from, a) {
        var start := StartDay(p, from, a.restart);
        WindowsTile(start, a.to, a.windowDays);
        ProcessKeepsFresh(p, Windows(start, a.to, a.windowDays), runs[n - 1].1, a.continueOnError, start, a.to);
      }
    }
  }

  /** Run m does not pass over a window before one that it commits. */
  ghost predicate PassesNothing(from: int, runs: seq<(Args, seq<Outcome>)>, m: nat)
    requires m < |runs|
  {
    var p, a := AfterRuns(from, runs, m), runs[m].0;
    a.continueOnError && Fetches(p, from, a) ==>
    NothingPassedOver(Windows(StartDay(p, from, a.restart), a.to, a.windowDays), runs[m].1)
  }

  /** A gap stays: no later run without restart fetches a day up to the cursor. */
  lemma GapStays(from: int, p: Progress, a: Args, outcomes: seq<Outcome>)
    requires !a.restart && !Covered(p, from)
    ensures !Covered(RunCountry(p, from, a, outcomes), from)
  {
    if Fetches(p, from, a) {
      var start := StartDay(p, from, a.restart);
      WindowsTile(start, a.to, a.windowDays);
      var day :| from <= day <= p.cursor.value && p.ingested[day] == 0;
      ProcessKeepsEarlier(p, Windows(start, a.to, a.windowDays), outcomes, a.continueOnError, start, a.to, day);
      assert RunCountry(p, from, a, outcomes).ingested[day] == 0;
    }
  }

  lemma RunKeepsCoveredIff(from: int, p: Progress, a: Args, outcomes: seq<Outcome>)
    requires !a.restart && Covered(p, from) && Fresh(p)
    ensures Covered(RunCountry(p, from, a, outcomes), from) <==>
            (a.continueOnError && Fetches(p, from, a) ==>
               NothingPassedOver(Windows(StartDay(p, from, a.restart), a.to, a.windowDays), outcomes))
  {
    if Fetches(p, from, a) {
      var start := StartDay(p, from, a.restart);
      WindowsTile(start, a.to, a.windowDays);
      var windows := Windows(start, a.to, a.windowDays);
      hide Windows, NothingPassedOver, Tiles, ProcessWindows;
      if a.continueOnError {
        ContinuingIsSafeIff(p, windows, outcomes, from, start, a.to);
      } else {
        ProcessKeepsCovered(p, windows, outcomes, from, start, a.to);
      }
    }
  }

  /**
   * The exact condition over any sequence of interrupted runs without restart, whether or not they
   * pass over errors: no gap is left before the cursor if and only if no run passes over a window
   * before one that it commits.
   */
  lemma {:induction false} NoGapIff(from: int, runs: seq<(Args, seq<Outcome>)>, n: nat)
    requires n <= |runs| && forall i | 0 <= i < n :: !runs[i].0.restart
    ensures Covered(AfterRuns(from, runs, n), from) <==> forall m | 0 <= m < n :: PassesNothing(from, runs, m)
  {
    hide Covered, PassesNothing, RunCountry, Fresh;
    if n > 0 {
      var p, a := AfterRuns(from, runs, n - 1), runs[n - 1].0;
      NoGapIff(from, runs, n - 1);
      RunsStayFresh(from, runs, n - 1);
      if Covered(p, from) {
        NextPassesNothingIff(from, runs, n - 1);
      } else {
        GapStays(from, p, a, runs[n - 1].1);
      }
    } else {
      NothingToCover(from, runs);
    }
  }

  lemma NothingToCover(from: int, runs: seq<(Args, seq<Outcome>)>)
    ensures Covered(AfterRuns(from, runs, 0), from)
  {
  }

  lemma NextPassesNothingIff(from: int, runs: seq<(Args, seq<Outcome>)>, m: nat)
    requires m < |runs| && !runs[m].0.restart
    requires Covered(AfterRuns(from, runs, m), from) && Fresh(AfterRuns(from, runs, m))
    ensures Covered(AfterRuns(from, runs, m + 1), from) <==> PassesNothing(from, runs, m)
  {
    hide Covered, RunCountry, Fresh;
    RunKeepsCoveredIff(from, AfterRuns(from, runs, m), runs[m].0, runs[m].1);
  }

  // A range that begins earlier

  /** Whatever the runs, no day before the range is ingested, and the cursor lies in it. */
  lemma {:induction false} RunsStayInRange(from: int, runs: seq<(Args, seq<Outcome>)>, n: nat, day: int)
    requires n <= |runs| && day < from
    ensures var p := AfterRuns(from, runs, n); p.ingested[day] == 0 && (p.cursor.Some? ==> from <= p.cursor.value)
  {
    if n > 0 {
      var p, a := AfterRuns(from, runs, n - 1), runs[n - 1].0;
      RunsStayInRange(from, runs, n - 1, day);
      if Fetches(p, from, a) {
        var start := StartDay(p, from, a.restart);
        WindowsTile(start, a.to, a.windowDays);
        ProcessKeepsEarlier(
          p, Windows(start, a.to, a.windowDays), runs[n - 1].1, a.continueOnError, start, a.to, day);
      }
    }
  }

  /**
   * A later run under the same key whose range begins earlier: once there is a cursor, the earlier days
   * are fetched by no run without restart, and the range is reported complete exactly when it ends by the cursor.
   */
  lemma EarlierDaysAreNeverFetched(
      from: int, runs: seq<(Args, seq<Outcome>)>, n: nat, earlier: int, a: Args, outcomes: seq<Outcome>, day: int)
    requires n <= |runs| && !a.restart && AfterRuns(from, runs, n).cursor.Some? && earlier <= day < from
    ensures RunCountry(AfterRuns(from, runs, n), earlier, a, outcomes).ingested[day] == 0
    ensures ReportsComplete(AfterRuns(from, runs, n), earlier, a) <==> a.to <= AfterRuns(from, runs, n).cursor.value
  {
    var p := AfterRuns(from, runs, n);
    RunsStayInRange(from, runs, n, day);
    if Fetches(p, earlier, a) {
      var start := StartDay(p, earlier, a.restart);
      WindowsTile(start, a.to, a.windowDays);
      ProcessKeepsEarlier(p, Windows(start, a.to, a.windowDays), outcomes, a.continueOnError, start, a.to, day);
    }
  }

  /** A failed day between two good ones is never fetched again, and the range is reported complete. */
  lemma ContinuingLosesADay()
    ensures var p := RunCountry(Progress(None, multiset{}), 0, Args(2, 1, false, true), [Ingested, Failed, Ingested]);
            p.ingested[1] == 0 && ReportsComplete(p, 0, Args(2, 1, false, false))
  {
    var a := Args(2, 1, false, true);
    var p := Progress(None, multiset{});
    var windows := Windows(0, 2, 1);
    assert windows == [Window(0, 0)] + Windows(1, 2, 1);
    assert Windows(1, 2, 1) == [Window(1, 1)] + Windows(2, 2, 1);
    assert Windows(2, 2, 1) == [Window(2, 2)] + Windows(3, 2, 1);
    assert windows == [Window(0, 0), Window(1, 1), Window(2, 2)];
    var first := Commit(p, Window(0, 0), Ingested);
    var last := Commit(first, Window(2, 2), Ingested);
    DaysCount(Window(0, 0), 1);
    DaysCount(Window(2, 2), 1);
    assert windows[1..] == [Window(1, 1), Window(2, 2)] && windows[1..][1..] == [Window(2, 2)];
    var outcomes := [Ingested, Failed, Ingested];
    assert outcomes[1..] == [Failed, Ingested] && outcomes[1..][1..] == [Ingested];
    assert ProcessWindows(first, [Window(2, 2)], [Ingested], true) == last by {
      assert [Window(2, 2)][1..] == [];
    }
    assert ProcessWindows(first, windows[1..], outcomes[1..], true) == last;
    assert ProcessWindows(p, windows, outcomes, true) == last;
  }

  // What one run does

  /** One window: what it commits, and whether the run ends with it. */
  lemma OneWindow(p: Progress, w: Window, outcome: Outcome, continueOnError: bool)
    ensures var q := ProcessWindows(p, [w], [outcome], continueOnError);
            (q.cursor == if outcome.Ingested? || (outcome.SomeRecordsFailed? && continueOnError) then Some(w.to)
                         else p.cursor) &&
            forall day ::
              q.ingested[day] == p.ingested[day] + if outcome.Ingested? && w.from <= day <= w.to then 1 else 0
    ensures Halts([w], [outcome], continueOnError) <==>
            outcome.Killed? || (!continueOnError && (outcome.Failed? || outcome.SomeRecordsFailed?))
  {
    assert [w][1..] == [] && [outcome][1..] == [];
    forall day ensures Days(w)[day] == if w.from <= day <= w.to then 1 else 0 {
      DaysCount(w, day);
    }
  }

  /** Windows and further windows: the run goes on behind the first unless it ended there. */
  lemma {:induction false} WindowsCompose(
      p: Progress, a: seq<Window>, b: seq<Window>, x: seq<Outcome>, y: seq<Outcome>, continueOnError: bool)
    requires |a| == |x|
    ensures var q := ProcessWindows(p, a, x, continueOnError);
            ProcessWindows(p, a + b, x + y, continueOnError) ==
            if Halts(a, x, continueOnError) then q else ProcessWindows(q, b, y, continueOnError)
    ensures Halts(a + b, x + y, continueOnError) <==> Halts(a, x, continueOnError) || Halts(b, y, continueOnError)
    decreases |a|
  {
    if a == [] {
      assert a + b == b && x + y == y;
    } else {
      assert (a + b)[1..] == a[1..] + b && (x + y)[1..] == x[1..] + y;
      var next := if Commits(x[0], continueOnError) then Commit(p, a[0], x[0]) else p;
      WindowsCompose(next, a[1..], b, x[1..], y, continueOnError);
    }
  }

  lemma {:induction false} AllWindowsIngested(
      p: Progress, windows: seq<Window>, outcomes: seq<Outcome>, continueOnError: bool, start: int, to: int, day: int)
    requires Tiles(windows, start, to) && |windows| <= |outcomes|
    requires forall k | 0 <= k < |outcomes| :: outcomes[k].Ingested?
    ensures var q := ProcessWindows(p, windows, outcomes, continueOnError);
            (windows != [] ==> q.cursor == Some(to)) &&
            q.ingested[day] == p.ingested[day] + if start <= day <= to then 1 else 0
    ensures !Halts(windows, outcomes, continueOnError)
    decreases |windows|
  {
    hide Days;
    TilesCoverOnce(windows, start, to, start);
    if windows != [] {
      TilesCoverOnce(windows[1..], windows[0].to + 1, to, start);
      DaysCount(windows[0], day);
      var next := Commit(p, windows[0], outcomes[0]);
      AllWindowsIngested(next, windows[1..], outcomes[1..], continueOnError, windows[0].to + 1, to, day);
    }
  }

  /** Which outcomes end a run among these windows: a cut-off, a missing one, and without leave any failure. */
  lemma {:induction false} HaltsIff(windows: seq<Window>, outcomes: seq<Outcome>, continueOnError: bool)
    ensures Halts(windows, outcomes, continueOnError) <==>
            |outcomes| < |windows| || exists i :: 0 <= i < |windows| && Stopper(outcomes[i], continueOnError)
    decreases |windows|
  {
    if windows != [] && outcomes != [] {
      HaltsIff(windows[1..], outcomes[1..], continueOnError);
      if |windows| <= |outcomes| {
        if i :| 0 <= i < |windows| && Stopper(outcomes[i], continueOnError) {
          assert i > 0 ==> outcomes[1..][i - 1] == outcomes[i];
        }
        if i :| 0 <= i < |windows[1..]| && Stopper(outcomes[1..][i], continueOnError) {
          assert outcomes[i + 1] == outcomes[1..][i];
        }
      }
    }
  }

  predicate Stopper(outcome: Outcome, continueOnError: bool) {
    outcome.Killed? || (!continueOnError && outcome in {SomeRecordsFailed, Failed})
  }

  /** Without leave to pass over errors, a run ends with a country exactly when that does not reach the last day. */
  lemma EndsRunIff(p: Progress, from: int, a: Args, outcomes: seq<Outcome>)
    requires a.windowDays > 0 && !a.continueOnError && from <= a.to
    requires a.restart ==> p.cursor.None?
    ensures var q := RunCountry(p, from, a, outcomes);
            EndsRun(p, from, a, outcomes) <==> q.cursor.None? || q.cursor.value < a.to
  {
    if Fetches(p, from, a) {
      var start := StartDay(p, from, a.restart);
      WindowsTile(start, a.to, a.windowDays);
      HaltsShort(p, Windows(start, a.to, a.windowDays), outcomes, start, a.to);
    }
  }

  lemma {:induction false} HaltsShort(
      p: Progress, windows: seq<Window>, outcomes: seq<Outcome>, start: int, to: int)
    requires Tiles(windows, start, to) && (p.cursor.Some? ==> p.cursor.value < start)
    requires windows == [] ==> p.cursor == Some(to)
    ensures var q := ProcessWindows(p, windows, outcomes, false);
            Halts(windows, outcomes, false) <==> q.cursor.None? || q.cursor.value < to
    decreases |windows|
  {
    hide Days;
    TilesCoverOnce(windows, start, to, start);
    if windows != [] {
      TilesCoverOnce(windows[1..], windows[0].to + 1, to, start);
      if outcomes != [] && outcomes[0].Ingested? {
        HaltsShort(Commit(p, windows[0], outcomes[0]), windows[1..], outcomes[1..], windows[0].to + 1, to);
      }
    }
  }

  /**
   * A run without failure ingests every day up to its last one once more, counted from the first day of the range or,
   * without restart, from the day after the cursor if that is later.
   */
  lemma FullRunIngests(p: Progress, from: int, a: Args, outcomes: seq<Outcome>, day: int)
    requires a.windowDays > 0 && (a.to >= from || p.cursor.Some?)
    requires forall k | 0 <= k < |outcomes| :: outcomes[k].Ingested?
    requires a.to - from < |outcomes|
    ensures var q := RunCountry(p, from, a, outcomes);
            var again := a.restart || p.cursor.None? || p.cursor.value < day;
            q.ingested[day] == p.ingested[day] + (if from <= day <= a.to && again then 1 else 0) &&
            (from <= a.to ==>
               q.cursor == if a.restart || p.cursor.None? || p.cursor.value < a.to then Some(a.to) else p.cursor)
    ensures !EndsRun(p, from, a, outcomes)
  {
    if Fetches(p, from, a) {
      var start := StartDay(p, from, a.restart);
      WindowsTile(start, a.to, a.windowDays);
      AtMostOneWindowADay(start, a.to, a.windowDays);
      AllWindowsIngested(p, Windows(start, a.to, a.windowDays), outcomes, a.continueOnError, start, a.to, day);
    }
  }

  lemma {:induction false} AtMostOneWindowADay(from: int, to: int, days: int)
    requires days > 0 && from <= to + 1
    ensures |Windows(from, to, days)| <= to + 1 - from
    decreases 1 + to - from
  {
    if from <= to {
      AtMostOneWindowADay(Min(from + days - 1, to) + 1, to, days);
    }
  }

  // All countries

  /** One window of the loop. */
  lemma WindowStep(p: Progress, windows: seq<Window>, outcomes: seq<Outcome>, continueOnError: bool, i: nat)
    requires i < |windows| && i < |outcomes|
    ensures var next := if Commits(outcomes[i], continueOnError) then Commit(p, windows[i], outcomes[i]) else p;
            ProcessWindows(p, windows[i..], outcomes[i..], continueOnError) ==
            if Stops(outcomes[i], continueOnError) then next
            else ProcessWindows(next, windows[i + 1..], outcomes[i + 1..], continueOnError)
    ensures Halts(windows[i..], outcomes[i..], continueOnError) ==
            (Stops(outcomes[i], continueOnError) || Halts(windows[i + 1..], outcomes[i + 1..], continueOnError))
  {
    assert windows[i..][1..] == windows[i + 1..] && outcomes[i..][1..] == outcomes[i + 1..];
  }

  /** Where the windows or the outcomes run out. */
  lemma WindowsEnd(p: Progress, windows: seq<Window>, outcomes: seq<Outcome>, continueOnError: bool)
    requires windows == [] || outcomes == []
    ensures ProcessWindows(p, windows, outcomes, continueOnError) == p
    ensures Halts(windows, outcomes, continueOnError) <==> windows != []
  {
  }

  type Country = string

  class Store {
    var progress: map<Country, Progress>

    constructor ()
      ensures progress == map[]
    {
      progress := map[];
    }

    function Of(country: Country): Progress
      reads this
    {
      if country in progress then progress[country] else Progress(None, multiset{})
    }

    /** One country of a run; `stopped` tells that the run ends with it. */
    method RunOne(country: Country, from: int, a: Args, outcomes: seq<Outcome>) returns (complete: bool, stopped: bool)
      modifies this
      ensures Of(country) == RunCountry(old(Of(country)), from, a, outcomes)
      ensures forall other | other != country :: Of(other) == old(Of(other))
      ensures complete <==> ReportsComplete(old(Of(country)), from, a)
      ensures stopped <==> EndsRun(old(Of(country)), from, a, outcomes)
    {
      var start := StartDay(Of(country), from, a.restart);
      if start > a.to {
        return true, false;
      }
      var windows := DateWindows(start, a.to, a.windowDays);
      if windows.None? {
        return false, true;
      }
      stopped := RunWindows(country, windows.value, outcomes, a.continueOnError);
      complete := false;
    }

    method RunWindows(country: Country, windows: seq<Window>, outcomes: seq<Outcome>, continueOnError: bool)
      returns (stopped: bool)
      modifies this
      ensures Of(country) == ProcessWindows(old(Of(country)), windows, outcomes, continueOnError)
      ensures forall other | other != country :: Of(other) == old(Of(other))
      ensures stopped <==> Halts(windows, outcomes, continueOnError)
    {
      hide ProcessWindows, Halts, Commit, Commits, Stops;
      var i := 0;
      while i < |windows|
        invariant 0 <= i <= |windows| && i <= |outcomes|
        invariant ProcessWindows(Of(country), windows[i..], outcomes[i..], continueOnError) ==
                  ProcessWindows(old(Of(country)), windows, outcomes, continueOnError)
        invariant Halts(windows[i..], outcomes[i..], continueOnError) == Halts(windows, outcomes, continueOnError)
        invariant forall other | other != country :: Of(other) == old(Of(other))
      {
        if i == |outcomes| {
          WindowsEnd(Of(country), windows[i..], outcomes[i..], continueOnError);
          return true;
        }
        WindowStep(Of(country), windows, outcomes, continueOnError, i);
        if Commits(outcomes[i], continueOnError) {
          progress := progress[country := Commit(Of(country), windows[i], outcomes[i])];
        }
        if Stops(outcomes[i], continueOnError) {
          return true;
        }
        i := i + 1;
      }
      WindowsEnd(Of(country), windows[i..], outcomes[i..], continueOnError);
      stopped := false;
    }

    /**
     * A run over the countries in order: it advances those it reaches, all but the last of which do not end the run,
     * and the last of which does unless the run reached all of them.
     */
    method RunAll(countries: seq<Country>, from: int, a: Args, outcomes: seq<seq<Outcome>>)
      returns (reached: nat)
      requires NoRepeats(countries) && |outcomes| == |countries|
      modifies this
      ensures reached <= |countries| && (reached == 0 ==> countries == [])
      ensures forall i | 0 <= i < reached - 1 ::
              !EndsRun(old(Of(countries[i])), from, a, outcomes[i])
      ensures reached < |countries| ==>
                EndsRun(old(Of(countries[reached - 1])), from, a, outcomes[reached - 1])
      ensures forall i | 0 <= i < reached ::
                Of(countries[i]) == RunCountry(old(Of(countries[i])), from, a, outcomes[i])
      ensures forall c | c !in countries[..reached] :: Of(c) == old(Of(c))
    {
      reached := 0;
      hide RunCountry, EndsRun, Of;
      while reached < |countries|
        invariant reached <= |countries|
        invariant forall i | 0 <= i < reached ::
                  !EndsRun(old(Of(countries[i])), from, a, outcomes[i])
        invariant forall i | 0 <= i < reached ::
                    Of(countries[i]) == RunCountry(old(Of(countries[i])), from, a, outcomes[i])
        invariant forall c | c !in countries[..reached] :: Of(c) == old(Of(c))
      {
        var country := countries[reached];
        NextCountry(countries, reached);
        var _, stopped := RunOne(country, from, a, outcomes[reached]);
        reached := reached + 1;
        if stopped {
          break;
        }
      }
    }
  }

  lemma NextCountry(countries: seq<Country>, n: nat)
    requires n < |countries| && NoRepeats(countries)
    ensures countries[n] !in countries[..n] && countries[..n + 1] == countries[..n] + [countries[n]]
    ensures forall i | 0 <= i < n :: countries[i] != countries[n]
  {
  }
}
