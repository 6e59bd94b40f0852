/** What the delivered digests of any number of workers cover, and exactly when they cover each event once. */
module DigestCoverage {
  import opened Common
  import opened Digests

  // Delivering steps

  /** The step records a delivery: it finishes a run that is still RUNNING. */
  predicate Delivers(rows: seq<Run>, s: Step) {
    s.Finishes? && s.ok && Find(rows, s.slot).Some? && rows[Find(rows, s.slot).value].status.Running?
  }

  /** The run that a finish is about. */
  function Target(rows: seq<Run>, s: Step): Run
    requires Find(rows, s.slot).Some?
  {
    rows[Find(rows, s.slot).value]
  }

  function Inside(start: int, end: int, t: int): nat { if start < t <= end then 1 else 0 }

  lemma StepEffect(rows: seq<Run>, s: Step, t: int)
    requires NoPartial(rows)
    ensures NoPartial(Apply(rows, s))
    ensures Covering(Apply(rows, s), t) ==
            Covering(rows, t) + (if Delivers(rows, s) then Inside(Target(rows, s).start, Target(rows, s).end, t) else 0)
    ensures MaxEnd(Apply(rows, s)) ==
            if Delivers(rows, s) then Later(MaxEnd(rows), Target(rows, s).end) else MaxEnd(rows)
  {
    hide Covering, MaxEnd, RetryAt;
    match s {
      case Claims(slot, start, count, now) =>
        if CanClaim(rows, slot, now) {
          ClaimedFacts(rows, slot, start, count, now);
          PutEffect(rows, ClaimedRun(rows, slot, start, count, now), t);
          PutKeepsNoPartial(rows, ClaimedRun(rows, slot, start, count, now));
        }
      case Finishes(slot, ok, now, attempts) =>
        if Find(rows, slot).Some? && Target(rows, s).status.Running? {
          UpdateEffect(rows, Find(rows, slot).value, Finished(Target(rows, s), ok, now, attempts), t);
        }
    }
  }

  lemma ClaimedFacts(rows: seq<Run>, slot: Slot, start: int, count: nat, now: int)
    requires CanClaim(rows, slot, now)
    ensures var r := ClaimedRun(rows, slot, start, count, now);
            r.slot == slot && r.status.Running? && r.start == start && r.end == now &&
            r.attempts == (match Find(rows, slot) { case None => 0 case Some(i) => rows[i].attempts }) + 1
    ensures match Find(rows, slot) { case None => true case Some(i) => !rows[i].Counts() }
  {
  }

  // The first guard: a period begins where the last delivered one ends

  /** The delivered periods tile the time from the creation of the rule to the last delivered end. */
  ghost predicate Tiled(rows: seq<Run>, created: int) {
    forall t :: Covering(rows, t) == Inside(created, LastEnd(rows, created), t)
  }

  /** No run starts before the rule or after the last delivered end, and none ends before the rule. */
  ghost predicate Bounded(rows: seq<Run>, created: int) {
    NoPartial(rows) && created <= LastEnd(rows, created) && forall i | 0 <= i < |rows| :: RowBounded(rows, created, i)
  }

  ghost predicate RowBounded(rows: seq<Run>, created: int, i: nat)
    requires i < |rows|
  {
    created <= rows[i].start <= LastEnd(rows, created) && created <= rows[i].end
  }

  /** The period of the run begins at the last delivered end, or holds no moment. */
  predicate BeginsAtLastEnd(rows: seq<Run>, created: int, s: Step)
    requires Find(rows, s.slot).Some?
  {
    Target(rows, s).start == LastEnd(rows, created) || Target(rows, s).end <= Target(rows, s).start
  }

  lemma LastEndAfter(rows: seq<Run>, created: int, s: Step)
    requires Bounded(rows, created)
    ensures LastEnd(Apply(rows, s), created) ==
            if Delivers(rows, s) then Max(LastEnd(rows, created), Target(rows, s).end) else LastEnd(rows, created)
  {
    StepEffect(rows, s, 0);
    hide Covering, MaxEnd, Apply, NoPartial;
    if Delivers(rows, s) {
      assert RowBounded(rows, created, Find(rows, s.slot).value);
    }
  }

  /** One delivery: the periods tile again exactly when the new one begins where the last one ended. */
  lemma TilesAgainIff(rows: seq<Run>, created: int, s: Step)
    requires Bounded(rows, created) && Tiled(rows, created) && Delivers(rows, s)
    ensures Tiled(Apply(rows, s), created) <==> BeginsAtLastEnd(rows, created, s)
  {
    hide Covering, MaxEnd, Apply, LastEnd, NoPartial;
    assert RowBounded(rows, created, Find(rows, s.slot).value);
    var r, end := Target(rows, s), LastEnd(rows, created);
    LastEndAfter(rows, created, s);
    forall t ensures Covering(Apply(rows, s), t) == Inside(created, end, t) + Inside(r.start, r.end, t) {
      StepEffect(rows, s, t);
    }
    if !BeginsAtLastEnd(rows, created, s) {
      var t := r.start + 1;
      assert Covering(Apply(rows, s), t) == 2;
    }
  }

  // Runs of any number of workers

  /**
   * Every claim starts where some table that its worker may have read, now or earlier, says that
   * the last delivered period ends, and no clock is before the creation of the rule.
   */
  ghost predicate Planned(created: int, steps: seq<Step>) {
    forall k | 0 <= k < |steps| && steps[k].Claims? :: PlannedAt(created, steps, k)
  }

  ghost predicate PlannedAt(created: int, steps: seq<Step>, k: nat)
    requires k < |steps| && steps[k].Claims?
  {
    created <= steps[k].now && exists m | 0 <= m <= k :: steps[k].start == EndAt(created, steps, m)
  }

  /** The last delivered end after the first m steps. */
  ghost function EndAt(created: int, steps: seq<Step>, m: nat): int
    requires m <= |steps|
  {
    LastEnd(After([], steps, m), created)
  }

  lemma StepKeepsBounded(rows: seq<Run>, created: int, s: Step)
    requires Bounded(rows, created)
    requires s.Claims? ==> created <= s.start <= LastEnd(rows, created) && created <= s.now
    ensures Bounded(Apply(rows, s), created) && LastEnd(rows, created) <= LastEnd(Apply(rows, s), created)
  {
    StepEffect(rows, s, 0);
    LastEndAfter(rows, created, s);
    var next := Apply(rows, s);
    forall i | 0 <= i < |next| ensures RowBounded(next, created, i) {
      RowAfterStep(rows, s, i);
      assert i < |rows| ==> RowBounded(rows, created, i);
    }
  }

  /** A step changes the period of a row only by claiming it. */
  lemma RowAfterStep(rows: seq<Run>, s: Step, i: nat)
    requires i < |Apply(rows, s)|
    ensures var r := Apply(rows, s)[i];
            (i < |rows| && r.start == rows[i].start && r.end == rows[i].end) ||
            (s.Claims? && r.start == s.start && r.end == s.now)
  {
    hide RetryAt;
  }

  /** In every planned run the last delivered end only grows. */
  lemma {:induction false} RunIsBounded(created: int, steps: seq<Step>, n: nat)
    requires Planned(created, steps) && n <= |steps|
    ensures Bounded(After([], steps, n), created)
    ensures forall m | 0 <= m <= n :: EndAt(created, steps, m) <= EndAt(created, steps, n)
    ensures forall m | 0 <= m <= n :: created <= EndAt(created, steps, m)
  {
    hide Apply, Bounded, LastEnd;
    if n == 0 {
      StartsBounded(created);
    } else {
      RunIsBounded(created, steps, n - 1);
      if steps[n - 1].Claims? {
        assert PlannedAt(created, steps, n - 1);
      }
      StepKeepsBounded(After([], steps, n - 1), created, steps[n - 1]);
    }
  }

  lemma StartsBounded(created: int)
    ensures Bounded([], created) && LastEnd([], created) == created
  {
  }

  /**
   * However the workers interleave, nothing is skipped: the delivered periods cover every moment
   * up to the last delivered end, and no other moment.
   */
  lemma {:induction false} NothingIsSkipped(created: int, steps: seq<Step>, n: nat, t: int)
    requires Planned(created, steps) && n <= |steps|
    ensures Covering(After([], steps, n), t) > 0 <==> created < t <= EndAt(created, steps, n)
  {
    hide Apply, LastEnd, Covering;
    if n == 0 {
      NothingCovered(created, t);
    } else {
      var rows, s := After([], steps, n - 1), steps[n - 1];
      NothingIsSkipped(created, steps, n - 1, t);
      RunIsBounded(created, steps, n - 1);
      StepEffect(rows, s, t);
      LastEndAfter(rows, created, s);
      if Delivers(rows, s) {
        assert RowBounded(rows, created, Find(rows, s.slot).value);
      }
    }
  }

  lemma NothingCovered(created: int, t: int)
    ensures Covering([], t) == 0 && LastEnd([], created) == created
  {
  }

  /** What is covered stays covered at least as often. */
  lemma {:induction false} CoveringGrows(created: int, steps: seq<Step>, m: nat, n: nat, t: int)
    requires Planned(created, steps) && m <= n <= |steps|
    ensures Covering(After([], steps, m), t) <= Covering(After([], steps, n), t)
  {
    hide Apply, Covering, Delivers;
    if m < n {
      CoveringGrows(created, steps, m, n - 1, t);
      RunIsBounded(created, steps, n - 1);
      StepEffect(After([], steps, n - 1), steps[n - 1], t);
    }
  }

  ghost predicate BeginsRight(created: int, steps: seq<Step>, k: nat)
    requires k < |steps|
  {
    var rows := After([], steps, k);
    Delivers(rows, steps[k]) ==> BeginsAtLastEnd(rows, created, steps[k])
  }

  /** A delivery that begins before the last delivered end covers some moment twice, for good. */
  lemma WrongBeginningOverlaps(created: int, steps: seq<Step>, k: nat, n: nat)
    requires Planned(created, steps) && k < n <= |steps| && !BeginsRight(created, steps, k)
    ensures !Tiled(After([], steps, n), created)
  {
    hide Apply, LastEnd, Covering;
    var rows, s := After([], steps, k), steps[k];
    RunIsBounded(created, steps, k);
    assert RowBounded(rows, created, Find(rows, s.slot).value);
    var t := Target(rows, s).start + 1;
    NothingIsSkipped(created, steps, k, t);
    StepEffect(rows, s, t);
    assert After([], steps, k + 1) == Apply(rows, s);
    CoveringGrows(created, steps, k + 1, n, t);
  }

  /**
   * The exact condition: over every run of any number of workers the delivered periods tile the
   * time since the creation of the rule if and only if every delivery that was recorded began at
   * the end of the one before.
   */
  lemma {:induction false} TiledIff(created: int, steps: seq<Step>, n: nat)
    requires Planned(created, steps) && n <= |steps|
    ensures Tiled(After([], steps, n), created) <==> forall k | 0 <= k < n :: BeginsRight(created, steps, k)
  {
    hide Apply, Tiled, BeginsAtLastEnd, Delivers;
    if forall k | 0 <= k < n :: BeginsRight(created, steps, k) {
      BeginningsRightTile(created, steps, n);
    } else {
      var k :| 0 <= k < n && !BeginsRight(created, steps, k);
      WrongBeginningOverlaps(created, steps, k, n);
    }
  }

  lemma {:induction false} BeginningsRightTile(created: int, steps: seq<Step>, n: nat)
    requires Planned(created, steps) && n <= |steps| && forall k | 0 <= k < n :: BeginsRight(created, steps, k)
    ensures Tiled(After([], steps, n), created)
  {
    hide Apply, LastEnd, Covering, BeginsAtLastEnd;
    if n == 0 {
      forall t ensures Covering([], t) == Inside(created, LastEnd([], created), t) {
        NothingCovered(created, t);
      }
    } else {
      var rows, s := After([], steps, n - 1), steps[n - 1];
      BeginningsRightTile(created, steps, n - 1);
      RunIsBounded(created, steps, n - 1);
      assert BeginsRight(created, steps, n - 1);
      if Delivers(rows, s) {
        TilesAgainIff(rows, created, s);
      } else {
        LastEndAfter(rows, created, s);
        forall t ensures Covering(Apply(rows, s), t) == Covering(rows, t) {
          StepEffect(rows, s, t);
        }
      }
    }
  }

  // The second guard: the recorded period is the one that was sent

  datatype Period = Period(start: int, end: int)

  /** The period that the given attempt of the slot claimed among the first n steps, which is the one that it sends. */
  ghost function Sent(steps: seq<Step>, n: nat, slot: Slot, attempts: nat): Option<Period>
    requires n <= |steps|
  {
    if n == 0 then None
    else if Leases(After([], steps, n - 1), steps[n - 1], slot, attempts)
    then Some(Period(steps[n - 1].start, steps[n - 1].now))
    else Sent(steps, n - 1, slot, attempts)
  }

  /** The step is the claim that opens the given attempt of the slot. */
  predicate Leases(rows: seq<Run>, s: Step, slot: Slot, attempts: nat) {
    s.Claims? && s.slot == slot && CanClaim(rows, slot, s.now) &&
    ClaimedRun(rows, slot, s.start, s.count, s.now).attempts == attempts
  }

  /** A run that failed is claimed again only later than it was claimed before. */
  ghost predicate RetriesLater(steps: seq<Step>) {
    forall k | 0 <= k < |steps| :: RetryIsLater(After([], steps, k), steps[k])
  }

  predicate RetryIsLater(rows: seq<Run>, s: Step) {
    s.Claims? && Find(rows, s.slot).Some? && Target(rows, s).status.FailedRun? && CanClaim(rows, s.slot, s.now) ==>
    Target(rows, s).end < s.now
  }

  /**
   * A row holds the period of its latest attempt, which ends after those of the earlier ones; later
   * ones do not exist.
   */
  ghost predicate Remembers(steps: seq<Step>, n: nat, slot: Slot)
    requires n <= |steps|
  {
    var rows := After([], steps, n);
    match Find(rows, slot)
    case None => forall a: nat :: Sent(steps, n, slot, a) == None
    case Some(i) =>
      var r := rows[i];
      r.attempts >= 1 && !r.status.Pending? && (r.status.Running? ==> r.lastAttempt == Some(r.end)) &&
      Sent(steps, n, slot, r.attempts) == Some(Period(r.start, r.end)) &&
      (forall a: nat | a < r.attempts && Sent(steps, n, slot, a).Some? :: Sent(steps, n, slot, a).value.end < r.end) &&
      (forall a: nat | a > r.attempts :: Sent(steps, n, slot, a) == None)
  }

  /** The row of a slot after a step. */
  lemma TargetAfter(rows: seq<Run>, s: Step, slot: Slot)
    ensures var i, j := Find(rows, slot), Find(Apply(rows, s), slot);
            if s.slot != slot then
              (i.None? <==> j.None?) && (i.Some? ==> Apply(rows, s)[j.value] == rows[i.value])
            else if s.Claims? && CanClaim(rows, slot, s.now) then
              j.Some? && Apply(rows, s)[j.value] == ClaimedRun(rows, slot, s.start, s.count, s.now)
            else if s.Finishes? && i.Some? && rows[i.value].status.Running? then
              j.Some? && Apply(rows, s)[j.value] == Finished(rows[i.value], s.ok, s.now, s.attempts)
            else i == j && Apply(rows, s) == rows
  {
    hide RetryAt;
    match s {
      case Claims(own, start, count, now) =>
        if CanClaim(rows, own, now) {
          var r := ClaimedRun(rows, own, start, count, now);
          match Find(rows, own) {
            case None => FindAppended(rows, r, slot);
            case Some(i) => FindWritten(rows, i, r, slot);
          }
        }
      case Finishes(own, ok, now, attempts) =>
        if Find(rows, own).Some? && Target(rows, s).status.Running? {
          FindWritten(rows, Find(rows, own).value, Finished(Target(rows, s), ok, now, attempts), slot);
        }
    }
  }

  lemma FindAppended(rows: seq<Run>, r: Run, slot: Slot)
    ensures Find(rows + [r], slot) == if r.slot == slot then Some(|rows|) else Find(rows, slot)
  {
    assert (rows + [r])[..|rows|] == rows;
  }

  lemma {:induction false} FindWritten(rows: seq<Run>, i: nat, r: Run, slot: Slot)
    requires i < |rows| && r.slot == rows[i].slot
    ensures Find(rows[i := r], slot) == Find(rows, slot)
  {
    var n := |rows| - 1;
    if i < n {
      FindWritten(rows[..n], i, r, slot);
      assert rows[i := r][..n] == rows[..n][i := r];
    } else {
      assert rows[i := r][..n] == rows[..n];
    }
  }

  lemma {:induction false} RowsRemember(steps: seq<Step>, n: nat, slot: Slot)
    requires RetriesLater(steps) && n <= |steps|
    ensures Remembers(steps, n, slot)
  {
    hide Remembers, RetryIsLater, After;
    if n > 0 {
      RowsRemember(steps, n - 1, slot);
      assert RetryIsLater(After([], steps, n - 1), steps[n - 1]);
      var rows, s := After([], steps, n - 1), steps[n - 1];
      if s.Claims? && s.slot == slot && CanClaim(rows, slot, s.now) {
        ClaimIsRemembered(steps, n, slot);
      } else {
        OtherStepsRemember(steps, n, slot);
      }
    } else {
      NothingToRemember(steps, slot);
    }
  }

  lemma NothingToRemember(steps: seq<Step>, slot: Slot)
    ensures Remembers(steps, 0, slot)
  {
  }

  lemma ClaimIsRemembered(steps: seq<Step>, n: nat, slot: Slot)
    requires 0 < n <= |steps| && Remembers(steps, n - 1, slot)
    requires RetryIsLater(After([], steps, n - 1), steps[n - 1])
    requires var s := steps[n - 1]; s.Claims? && s.slot == slot && CanClaim(After([], steps, n - 1), slot, s.now)
    ensures Remembers(steps, n, slot)
  {
    hide Apply, Find, RetryAt;
    var rows, s := After([], steps, n - 1), steps[n - 1];
    assert After([], steps, n) == Apply(rows, s);
    TargetAfter(rows, s, slot);
    var r := ClaimedRun(rows, slot, s.start, s.count, s.now);
    forall a: nat
      ensures Sent(steps, n, slot, a) ==
              if a == r.attempts then Some(Period(s.start, s.now)) else Sent(steps, n - 1, slot, a)
    {
    }
    if Find(rows, slot).Some? {
      assert Target(rows, s).end < s.now;
    }
  }

  lemma OtherStepsRemember(steps: seq<Step>, n: nat, slot: Slot)
    requires 0 < n <= |steps| && Remembers(steps, n - 1, slot)
    requires var s := steps[n - 1]; !(s.Claims? && s.slot == slot && CanClaim(After([], steps, n - 1), slot, s.now))
    ensures Remembers(steps, n, slot)
  {
    hide Apply, Find, RetryAt;
    var rows, s := After([], steps, n - 1), steps[n - 1];
    assert After([], steps, n) == Apply(rows, s);
    TargetAfter(rows, s, slot);
    forall a: nat ensures Sent(steps, n, slot, a) == Sent(steps, n - 1, slot, a) {
    }
  }

  /**
   * The exact condition: when a delivery is recorded, the recorded period is the one in the
   * message if and only if the attempt that sent it is still the attempt of the run.
   */
  lemma {:induction false} RecordedAsSentIff(steps: seq<Step>, k: nat)
    requires RetriesLater(steps) && k < |steps| && Delivers(After([], steps, k), steps[k])
    requires Sent(steps, k, steps[k].slot, steps[k].attempts).Some?
    ensures var r := Target(After([], steps, k), steps[k]);
            Sent(steps, k, steps[k].slot, steps[k].attempts) == Some(Period(r.start, r.end)) <==>
            r.attempts == steps[k].attempts
  {
    RowsRemember(steps, k, steps[k].slot);
  }

  // Both together

  /** Workers finish only attempts that they have claimed. */
  ghost predicate Honest(steps: seq<Step>) {
    forall k | 0 <= k < |steps| && steps[k].Finishes? :: Sent(steps, k, steps[k].slot, steps[k].attempts).Some?
  }

  ghost predicate RecordedAsSent(steps: seq<Step>, k: nat)
    requires k < |steps|
  {
    var rows, s := After([], steps, k), steps[k];
    Delivers(rows, s) ==> Sent(steps, k, s.slot, s.attempts) == Some(Period(Target(rows, s).start, Target(rows, s).end))
  }

  ghost predicate AttemptIsCurrent(steps: seq<Step>, k: nat)
    requires k < |steps|
  {
    var rows, s := After([], steps, k), steps[k];
    Delivers(rows, s) ==> Target(rows, s).attempts == s.attempts
  }

  /**
   * With any number of workers, every event up to the last delivered end is in exactly one
   * delivered digest, and in the message that this digest sent, if and only if every recorded
   * delivery passes two checks that the final update does not make: its period begins at the last
   * delivered end, and its attempt is still the attempt of the run.
   */
  lemma DeliveredOnceAsSentIff(created: int, steps: seq<Step>, n: nat)
    requires Planned(created, steps) && RetriesLater(steps) && Honest(steps) && n <= |steps|
    ensures Tiled(After([], steps, n), created) && (forall k | 0 <= k < n :: RecordedAsSent(steps, k)) <==>
            forall k | 0 <= k < n :: BeginsRight(created, steps, k) && AttemptIsCurrent(steps, k)
  {
    hide Tiled, BeginsRight, Delivers, RetriesLater, Planned;
    TiledIff(created, steps, n);
    forall k | 0 <= k < n ensures RecordedAsSent(steps, k) <==> AttemptIsCurrent(steps, k) {
      if Delivers(After([], steps, k), steps[k]) {
        DeliversFinishes(After([], steps, k), steps[k]);
        RecordedAsSentIff(steps, k);
      }
    }
  }

  lemma DeliversFinishes(rows: seq<Run>, s: Step)
    requires Delivers(rows, s)
    ensures s.Finishes?
  {
  }

  // Both checks are needed

  lemma OneRun(r: Run, t: int)
    ensures forall slot :: Find([r], slot) == if r.slot == slot then Some(0) else None
    ensures MaxEnd([r]) == if r.Counts() then Some(r.end) else None
    ensures Covering([r], t) == Covers(r, t)
  {
    assert [r][..0] == [];
  }

  lemma TwoRuns(a: Run, b: Run, t: int)
    requires a.slot != b.slot
    ensures Find([a, b], a.slot) == Some(0) && Find([a, b], b.slot) == Some(1)
    ensures a.Counts() && !b.Counts() ==> MaxEnd([a, b]) == Some(a.end)
    ensures Covering([a, b], t) == Covers(a, t) + Covers(b, t)
  {
    assert [a, b][..1] == [a];
    OneRun(a, t);
  }

  /** The runs after a claim of a slot that has no run. */
  lemma FirstClaim(rows: seq<Run>, slot: Slot, start: int, now: int)
    requires Find(rows, slot).None?
    ensures Apply(rows, Claims(slot, start, 0, now)) == rows + [Run(slot, Running, start, now, 0, 1, Some(now), None)]
  {
  }

  /** The runs after the only run has been claimed again. */
  lemma SecondClaim(r: Run, now: int)
    requires Reclaimable(r, now)
    ensures Apply([r], Claims(r.slot, r.start, 0, now)) ==
            [Run(r.slot, Running, r.start, now, 0, r.attempts + 1, Some(now), None)]
  {
    OneRun(r, 0);
  }

  lemma FinishAt(rows: seq<Run>, i: nat, s: Step)
    requires s.Finishes? && Find(rows, s.slot) == Some(i)
    ensures Apply(rows, s) ==
            if rows[i].status.Running? then rows[i := Finished(rows[i], s.ok, s.now, s.attempts)] else rows
  {
  }

  function LateSteps(slot: Slot, created: int, early: int, late: int): seq<Step> {
    [Claims(slot, created, 0, early), Claims(slot, created, 0, late),
     Finishes(slot, true, early, 1), Finishes(slot, false, late, 2)]
  }

  lemma LateTrace(slot: Slot, created: int, early: int, late: int)
    requires early + LEASE_TIMEOUT < late
    ensures var steps := LateSteps(slot, created, early, late);
            var first := Run(slot, Running, created, early, 0, 1, Some(early), None);
            var second := Run(slot, Running, created, late, 0, 2, Some(late), None);
            After([], steps, 0) == [] && After([], steps, 1) == [first] && After([], steps, 2) == [second] &&
            After([], steps, 3) == After([], steps, 4) == [second.(status := Delivered)]
  {
    hide Apply, Covering, MaxEnd;
    var steps := LateSteps(slot, created, early, late);
    var first := Run(slot, Running, created, early, 0, 1, Some(early), None);
    var second := Run(slot, Running, created, late, 0, 2, Some(late), None);
    var done := second.(status := Delivered);
    assert After([], steps, 0) == [];
    FirstClaim([], slot, created, early);
    assert After([], steps, 1) == [first];
    SecondClaim(first, late);
    assert After([], steps, 2) == [second];
    OneRun(second, 0);
    FinishAt([second], 0, steps[2]);
    assert After([], steps, 3) == [done];
    OneRun(done, 0);
    FinishAt([done], 0, steps[3]);
  }

  /**
   * A worker that outlives its lease: it marks the reclaimed, longer period as delivered, and the
   * failure of the reclaiming worker is not recorded. The periods tile, but whatever happened
   * between the two claims was in no message and will be in no later digest.
   */
  lemma LateWorkerHidesEvents(slot: Slot, created: int, early: int, late: int, t: int)
    requires created <= early && early + LEASE_TIMEOUT < late && early < t <= late
    ensures var steps := LateSteps(slot, created, early, late);
            var rows := After([], steps, 4);
            Covering(rows, t) == 1 && LastEnd(rows, created) == late &&
            Sent(steps, 2, slot, 1) == Some(Period(created, early)) &&
            Delivers(After([], steps, 2), steps[2]) && !AttemptIsCurrent(steps, 2) && BeginsRight(created, steps, 2)
  {
    hide Apply, Covering, MaxEnd, Find, After;
    var steps := LateSteps(slot, created, early, late);
    LateTrace(slot, created, early, late);
    OneRun(After([], steps, 1)[0], t);
    OneRun(After([], steps, 2)[0], t);
    OneRun(After([], steps, 4)[0], t);
    FirstClaim([], slot, created, early);
    NoRuns(slot, created);
    assert Sent(steps, 1, slot, 1) == Some(Period(created, early));
  }

  lemma NoRuns(slot: Slot, created: int)
    ensures Find([], slot) == None && MaxEnd([]) == None
  {
  }

  function OpenSteps(one: Slot, other: Slot, created: int, early: int, late: int): seq<Step> {
    [Claims(one, created, 0, early), Claims(other, created, 0, late),
     Finishes(one, true, early, 1), Finishes(other, true, late, 1)]
  }

  lemma AfterNext(steps: seq<Step>, n: nat)
    requires n < |steps|
    ensures After([], steps, 0) == [] && After([], steps, n + 1) == Apply(After([], steps, n), steps[n])
  {
  }

  lemma OpenTrace(one: Slot, other: Slot, created: int, early: int, late: int)
    requires one != other
    ensures var steps := OpenSteps(one, other, created, early, late);
            var a := Run(one, Running, created, early, 0, 1, Some(early), None);
            var b := Run(other, Running, created, late, 0, 1, Some(late), None);
            After([], steps, 0) == [] && After([], steps, 1) == [a] && After([], steps, 2) == [a, b] &&
            After([], steps, 3) == [a.(status := Delivered), b] &&
            After([], steps, 4) == [a.(status := Delivered), b.(status := Delivered)]
  {
    hide Apply, Covering, MaxEnd, Find, After;
    var steps := OpenSteps(one, other, created, early, late);
    var a := Run(one, Running, created, early, 0, 1, Some(early), None);
    var b := Run(other, Running, created, late, 0, 1, Some(late), None);
    var done, also := a.(status := Delivered), b.(status := Delivered);
    NoRuns(one, created);
    AfterNext(steps, 0);
    FirstClaim([], one, created, early);
    OneRun(a, 0);
    AfterNext(steps, 1);
    FirstClaim([a], other, created, late);
    assert [] + [a] == [a] && [a] + [b] == [a, b] && [a, b][0 := done] == [done, b] &&
           [done, b][1 := also] == [done, also];
    TwoRuns(a, b, 0);
    AfterNext(steps, 2);
    FinishAt([a, b], 0, steps[2]);
    TwoRuns(done, b, 0);
    AfterNext(steps, 3);
    FinishAt([done, b], 1, steps[3]);
  }

  /**
   * Two open periods, as around a local midnight while the first is still being delivered: both
   * were planned from the same last end, no lease expires, every attempt is current, and both are
   * delivered. What happened before the earlier claim is in two delivered digests.
   */
  lemma OpenPeriodsOverlap(one: Slot, other: Slot, created: int, early: int, late: int, t: int)
    requires one != other && created < t <= early <= late
    ensures var steps := OpenSteps(one, other, created, early, late);
            Covering(After([], steps, 4), t) == 2 &&
            AttemptIsCurrent(steps, 2) && AttemptIsCurrent(steps, 3) && !BeginsRight(created, steps, 3)
  {
    hide Apply, Covering, MaxEnd, Find, After;
    var steps := OpenSteps(one, other, created, early, late);
    OpenTrace(one, other, created, early, late);
    TwoRuns(After([], steps, 2)[0], After([], steps, 2)[1], t);
    TwoRuns(After([], steps, 3)[0], After([], steps, 3)[1], t);
    TwoRuns(After([], steps, 4)[0], After([], steps, 4)[1], t);
  }

  /** Both are runs that the exact condition speaks of. */
  lemma LateStepsAreARun(slot: Slot, created: int, early: int, late: int)
    requires created <= early && early + LEASE_TIMEOUT < late
    ensures var steps := LateSteps(slot, created, early, late);
            Planned(created, steps) && RetriesLater(steps) && Honest(steps)
  {
    hide Apply, Covering, MaxEnd, Find, After;
    var steps := LateSteps(slot, created, early, late);
    LateTrace(slot, created, early, late);
    NoRuns(slot, created);
    OneRun(After([], steps, 1)[0], 0);
    OneRun(After([], steps, 2)[0], 0);
    assert EndAt(created, steps, 0) == created;
    assert PlannedAt(created, steps, 0) && PlannedAt(created, steps, 1);
    assert Sent(steps, 1, slot, 1) == Some(Period(created, early));
    assert Sent(steps, 2, slot, 2) == Some(Period(created, late)) == Sent(steps, 3, slot, 2);
  }

  lemma OpenStepsAreARun(one: Slot, other: Slot, created: int, early: int, late: int)
    requires one != other && created <= early <= late
    ensures var steps := OpenSteps(one, other, created, early, late);
            Planned(created, steps) && RetriesLater(steps) && Honest(steps)
  {
    hide Apply, Covering, MaxEnd, Find, After;
    var steps := OpenSteps(one, other, created, early, late);
    OpenTrace(one, other, created, early, late);
    NoRuns(one, created);
    OneRun(After([], steps, 1)[0], 0);
    TwoRuns(After([], steps, 2)[0], After([], steps, 2)[1], 0);
    assert EndAt(created, steps, 0) == created;
    assert PlannedAt(created, steps, 0) && PlannedAt(created, steps, 1);
    assert Sent(steps, 1, one, 1) == Some(Period(created, early)) == Sent(steps, 2, one, 1);
    assert Sent(steps, 2, other, 1) == Some(Period(created, late)) == Sent(steps, 3, other, 1);
  }

  /**
   * Why a retry must be later, and not only not earlier: a worker that outlived its lease fails
   * the run, and a retry at the very time of the current claim opens a new attempt with the same
   * period. The recorded period is then the one that was sent although its attempt is gone.
   */
  lemma TiedRetrySharesPeriod(slot: Slot)
    ensures var steps := [Claims(slot, -100, 0, 0), Claims(slot, -100, 0, 901), Finishes(slot, false, 0, 1),
                          Claims(slot, -100, 0, 901), Finishes(slot, true, 901, 2)];
            !RetryIsLater(After([], steps, 3), steps[3]) && Delivers(After([], steps, 4), steps[4]) &&
            !AttemptIsCurrent(steps, 4) && Target(After([], steps, 4), steps[4]).start == -100 &&
            Target(After([], steps, 4), steps[4]).end == 901 && Sent(steps, 2, slot, 2) == Some(Period(-100, 901))
  {
    hide Apply, Covering, MaxEnd, Find, After;
    var steps := [Claims(slot, -100, 0, 0), Claims(slot, -100, 0, 901), Finishes(slot, false, 0, 1),
                  Claims(slot, -100, 0, 901), Finishes(slot, true, 901, 2)];
    var first := Run(slot, Running, -100, 0, 0, 1, Some(0), None);
    var second := Run(slot, Running, -100, 901, 0, 2, Some(901), None);
    var failed := Run(slot, FailedRun, -100, 901, 0, 2, Some(901), Some(300));
    var third := Run(slot, Running, -100, 901, 0, 3, Some(901), None);
    NoRuns(slot, -100);
    AfterNext(steps, 0);
    FirstClaim([], slot, -100, 0);
    assert [] + [first] == [first];
    OneRun(first, 0);
    AfterNext(steps, 1);
    SecondClaim(first, 901);
    OneRun(second, 0);
    AfterNext(steps, 2);
    FinishAt([second], 0, steps[2]);
    assert Finished(second, false, 0, 1) == failed && [second][0 := failed] == [failed];
    OneRun(failed, 0);
    AfterNext(steps, 3);
    SecondClaim(failed, 901);
    OneRun(third, 0);
  }
}
