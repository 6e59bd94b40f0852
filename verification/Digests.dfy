/** Alert digests: leased runs per local period, and the events that the delivered ones cover. */
module Digests {
  import opened Common

  datatype Schedule = Immediate | Daily | Weekly

  /** A local date and time of day: day 0 is a Monday. */
  datatype Local = Local(day: int, second: int)

  /** The unique key of a run within its rule; weeks are numbered instead of named. */
  datatype Slot = Slot(schedule: Schedule, key: int)

  datatype Status = Pending | Running | FailedRun | Delivered | Partial

  /** One digest run of a rule; times are in seconds. */
  datatype Run = Run(
    slot: Slot, status: Status, start: int, end: int, eventCount: nat, attempts: nat,
    lastAttempt: Option<int>, nextRetry: Option<int>)
  {
    predicate Counts() { status.Delivered? || status.Partial? }
  }

  const LEASE_TIMEOUT := 15 * 60
  const RETRY_BASE := 5 * 60
  const RETRY_CAP := 6 * 60 * 60

  // Schedule arithmetic

  function PeriodKey(schedule: Schedule, local: Local): int {
    if schedule.Weekly? then local.day / 7 else local.day
  }

  predicate IsDue(schedule: Schedule, local: Local, digestTime: int) {
    !schedule.Immediate? && digestTime <= local.second && (schedule.Weekly? ==> local.day % 7 == 0)
  }

  /** A rule is due on the first local day of each period, from its digest time on; immediate rules never are. */
  lemma DueIff(schedule: Schedule, local: Local, digestTime: int)
    ensures IsDue(schedule, local, digestTime) <==>
            schedule != Immediate && digestTime <= local.second &&
            PeriodKey(schedule, local) != PeriodKey(schedule, Local(local.day - 1, local.second))
  {
  }

  /** Two due moments of one rule share a slot exactly when they fall on the same local day. */
  lemma DueOnOneDayIsOneSlot(schedule: Schedule, a: Local, b: Local, digestTime: int)
    requires IsDue(schedule, a, digestTime) && IsDue(schedule, b, digestTime)
    ensures PeriodKey(schedule, a) == PeriodKey(schedule, b) <==> a.day == b.day
  {
  }

  /** Weekly periods run from Monday to Sunday, daily ones are days. */
  lemma PeriodsAreWeeks(schedule: Schedule, a: Local, b: Local)
    ensures PeriodKey(schedule, a) == PeriodKey(schedule, b) <==>
            if schedule == Weekly
            then exists monday :: monday % 7 == 0 && monday <= a.day < monday + 7 && monday <= b.day < monday + 7
            else a.day == b.day
  {
    if schedule == Weekly && a.day / 7 == b.day / 7 {
      assert 7 * (a.day / 7) % 7 == 0;
    }
  }

  function RetryAt(now: int, attempts: nat): (at: int)
    ensures now + RETRY_BASE <= at <= now + RETRY_CAP
  {
    now + Min(RETRY_BASE * Pow2(if attempts > 0 then attempts - 1 else 0), RETRY_CAP)
  }

  // The runs of one rule

  function Find(rows: seq<Run>, slot: Slot): (index: Option<nat>)
    ensures index.Some? ==> index.value < |rows| && rows[index.value].slot == slot
    ensures index.None? ==> forall i | 0 <= i < |rows| :: rows[i].slot != slot
  {
    if rows == [] then None
    else if rows[|rows| - 1].slot == slot then Some(|rows| - 1)
    else Find(rows[..|rows| - 1], slot)
  }

  /** The end of the latest period that counts as delivered, or the given default. */
  function LastEnd(rows: seq<Run>, default: int): int {
    match MaxEnd(rows)
    case None => default
    case Some(end) => end
  }

  function MaxEnd(rows: seq<Run>): Option<int> {
    if rows == [] then None
    else
      var rest, r := MaxEnd(rows[..|rows| - 1]), rows[|rows| - 1];
      if r.Counts() && (rest.None? || rest.value < r.end) then Some(r.end) else rest
  }

  /** It is the latest end of a delivered or partial run, and the default if there is none. */
  lemma LastEndIsLatest(rows: seq<Run>, default: int)
    ensures forall r | r in rows && r.status in {Delivered, Partial} :: r.end <= LastEnd(rows, default)
    ensures (exists r :: r in rows && r.status in {Delivered, Partial} && r.end == LastEnd(rows, default)) ||
            (LastEnd(rows, default) == default && forall r | r in rows :: r.status !in {Delivered, Partial})
  {
    MaxEndIsLatest(rows);
  }

  lemma {:induction false} MaxEndIsLatest(rows: seq<Run>)
    ensures MaxEnd(rows).None? <==> forall r | r in rows :: r.status !in {Delivered, Partial}
    ensures MaxEnd(rows).Some? ==>
              (forall r | r in rows && r.status in {Delivered, Partial} :: r.end <= MaxEnd(rows).value) &&
              exists r :: r in rows && r.status in {Delivered, Partial} && r.end == MaxEnd(rows).value
  {
    if rows != [] {
      var front, last := rows[..|rows| - 1], rows[|rows| - 1];
      assert rows == front + [last];
      MaxEndIsLatest(front);
      assert last.Counts() <==> last.status in {Delivered, Partial};
      if MaxEnd(rows).Some? && MaxEnd(front) != MaxEnd(rows) {
        assert last in rows;
      }
    }
  }

  predicate Reclaimable(r: Run, now: int) {
    r.status.Pending? ||
    (r.status.FailedRun? && (r.nextRetry.None? || r.nextRetry.value <= now)) ||
    (r.status.Running? && (r.lastAttempt.None? || r.lastAttempt.value < now - LEASE_TIMEOUT))
  }

  predicate CanClaim(rows: seq<Run>, slot: Slot, now: int) {
    Find(rows, slot).None? || Reclaimable(rows[Find(rows, slot).value], now)
  }

  /** A period can be claimed if it has no run yet, or one that is pending, failed and due again, or stale. */
  lemma ClaimableIff(rows: seq<Run>, r: Run, now: int)
    requires DistinctSlots(rows)
    ensures r in rows ==>
              (CanClaim(rows, r.slot, now) <==>
               r.status == Pending ||
               (r.status == FailedRun && (r.nextRetry == None || r.nextRetry.value <= now)) ||
               (r.status == Running && (r.lastAttempt == None || r.lastAttempt.value + 900 < now)))
    ensures (forall other | other in rows :: other.slot != r.slot) ==> CanClaim(rows, r.slot, now)
  {
    if r in rows {
      var i :| 0 <= i < |rows| && rows[i] == r;
      assert Find(rows, r.slot) == Some(i);
    }
  }

  /** The row that a successful claim writes. */
  function ClaimedRun(rows: seq<Run>, slot: Slot, start: int, count: nat, now: int): Run {
    var earlier := match Find(rows, slot) { case None => 0 case Some(i) => rows[i].attempts };
    Run(slot, Running, start, now, count, earlier + 1, Some(now), None)
  }

  function Put(rows: seq<Run>, r: Run): seq<Run> {
    match Find(rows, r.slot)
    case None => rows + [r]
    case Some(i) => rows[i := r]
  }

  function Claim(rows: seq<Run>, slot: Slot, start: int, count: nat, now: int): seq<Run> {
    if CanClaim(rows, slot, now) then Put(rows, ClaimedRun(rows, slot, start, count, now)) else rows
  }

  /** The run after the delivery attempt of the sweep at `now`. */
  function Finished(r: Run, ok: bool, now: int, attempts: nat): Run {
    if ok then r.(status := Delivered, nextRetry := None)
    else r.(status := FailedRun, nextRetry := Some(RetryAt(now, attempts)))
  }

  function Finish(rows: seq<Run>, slot: Slot, ok: bool, now: int, attempts: nat): seq<Run> {
    match Find(rows, slot)
    case None => rows
    case Some(i) => if rows[i].status.Running? then rows[i := Finished(rows[i], ok, now, attempts)] else rows
  }

  // When a period may be attempted

  /** The runs of one slot after a claim: nobody else claims it for fifteen minutes. */
  lemma LeaseLasts(rows: seq<Run>, slot: Slot, start: int, count: nat, now: int, later: int)
    requires CanClaim(rows, slot, now)
    ensures CanClaim(Claim(rows, slot, start, count, now), slot, later) <==> now + 900 < later
  {
    var r := ClaimedRun(rows, slot, start, count, now);
    match Find(rows, slot) {
      case None => FindAtEnd(rows, r);
      case Some(i) => FindUpdated(rows, i, r);
    }
  }

  lemma FindAtEnd(rows: seq<Run>, r: Run)
    ensures Find(rows + [r], r.slot) == Some(|rows|)
  {
    assert (rows + [r])[..|rows|] == rows;
  }

  /**
   * The runs of one slot after its leased attempt has ended: a delivered one is never claimed again, and a failed one
   * after five minutes, doubled with each attempt, or six hours.
   */
  lemma RetriedIff(rows: seq<Run>, slot: Slot, ok: bool, now: int, attempts: nat, later: int)
    requires Find(rows, slot).Some? && rows[Find(rows, slot).value].status.Running?
    ensures CanClaim(Finish(rows, slot, ok, now, attempts), slot, later) <==>
            !ok && now + Min(300 * Pow2(if attempts > 0 then attempts - 1 else 0), 21600) <= later
  {
    var i := Find(rows, slot).value;
    FindUpdated(rows, i, Finished(rows[i], ok, now, attempts));
  }

  // Any number of workers

  /** A step of some worker on the runs of one rule; a crashed worker just stops taking steps. */
  datatype Step =
    | Claims(slot: Slot, start: int, count: nat, now: int)
    | Finishes(slot: Slot, ok: bool, now: int, attempts: nat)

  function Apply(rows: seq<Run>, s: Step): seq<Run> {
    match s
    case Claims(slot, start, count, now) => Claim(rows, slot, start, count, now)
    case Finishes(slot, ok, now, attempts) => Finish(rows, slot, ok, now, attempts)
  }

  function After(rows: seq<Run>, steps: seq<Step>, n: nat): seq<Run>
    requires n <= |steps|
  {
    if n == 0 then rows else Apply(After(rows, steps, n - 1), steps[n - 1])
  }

  /** Under every interleaving a delivered run is never touched again. */
  lemma {:induction false} DeliveredIsFinal(rows: seq<Run>, steps: seq<Step>, n: nat, i: nat)
    requires n <= |steps| && i < |rows| && rows[i].status.Delivered?
    ensures i < |After(rows, steps, n)| && After(rows, steps, n)[i] == rows[i]
  {
    if n > 0 {
      DeliveredIsFinal(rows, steps, n - 1, i);
    }
  }

  ghost predicate DistinctSlots(rows: seq<Run>) {
    forall i, j | 0 <= i < j < |rows| :: rows[i].slot != rows[j].slot
  }

  /** There is never more than one run, hence one delivery, per local period. */
  lemma {:induction false} OneRunPerSlot(steps: seq<Step>, n: nat)
    requires n <= |steps|
    ensures DistinctSlots(After([], steps, n))
  {
    if n > 0 {
      OneRunPerSlot(steps, n - 1);
    }
  }

  // One worker

  /** How one sweep's attempt ends: delivered, failed, or never finished. */
  datatype Reply = Sent | NotSent | Crashed

  /** A due sweep of the rule; whether it can claim its slot depends on the runs. */
  datatype Sweep = Sweep(now: int, slot: Slot, reply: Reply)

  /** How many of the events were triggered in (from, to]. */
  function EventsIn(events: seq<int>, from: int, to: int): nat {
    if events == [] then 0
    else EventsIn(events[..|events| - 1], from, to) + (if from < events[|events| - 1] <= to then 1 else 0)
  }

  /** The row that a sweep leaves when it can claim: the period runs from the last delivered end to now. */
  function AttemptedRun(rows: seq<Run>, created: int, events: seq<int>, s: Sweep): Run {
    var start := LastEnd(rows, created);
    var r := ClaimedRun(rows, s.slot, start, EventsIn(events, start, s.now), s.now);
    match s.reply
    case Sent => Finished(r, true, s.now, r.attempts)
    case NotSent => Finished(r, false, s.now, r.attempts)
    case Crashed => r
  }

  function SweepOnce(rows: seq<Run>, created: int, events: seq<int>, s: Sweep): seq<Run> {
    if CanClaim(rows, s.slot, s.now) then Put(rows, AttemptedRun(rows, created, events, s)) else rows
  }

  function Swept(created: int, events: seq<int>, sweeps: seq<Sweep>, n: nat): seq<Run>
    requires n <= |sweeps|
  {
    if n == 0 then [] else SweepOnce(Swept(created, events, sweeps, n - 1), created, events, sweeps[n - 1])
  }

  /** A sweep of one worker is a claim and, unless it crashes, a finish. */
  lemma SweepIsTwoSteps(rows: seq<Run>, created: int, events: seq<int>, s: Sweep)
    requires CanClaim(rows, s.slot, s.now)
    ensures var start := LastEnd(rows, created);
            var r := ClaimedRun(rows, s.slot, start, EventsIn(events, start, s.now), s.now);
            var claimed := Claim(rows, s.slot, start, r.eventCount, s.now);
            SweepOnce(rows, created, events, s) ==
            if s.reply.Crashed? then claimed else Finish(claimed, s.slot, s.reply.Sent?, s.now, r.attempts)
  {
    var start := LastEnd(rows, created);
    var r := ClaimedRun(rows, s.slot, start, EventsIn(events, start, s.now), s.now);
    match Find(rows, s.slot) {
      case None => assert (rows + [r])[..|rows|] == rows;
      case Some(i) => FindUpdated(rows, i, r);
    }
  }

  lemma {:induction false} FindUpdated(rows: seq<Run>, i: nat, r: Run)
    requires Find(rows, r.slot) == Some(i)
    ensures Find(rows[i := r], r.slot) == Some(i)
  {
    var n := |rows| - 1;
    if i < n {
      FindUpdated(rows[..n], i, r);
      assert rows[i := r][..n] == rows[..n][i := r];
    }
  }

  /** How many delivered runs cover the moment t. */
  function Covering(rows: seq<Run>, t: int): nat {
    if rows == [] then 0
    else
      var r := rows[|rows| - 1];
      Covering(rows[..|rows| - 1], t) + (if r.status.Delivered? && r.start < t <= r.end then 1 else 0)
  }

  /** The events that the delivered runs report, counted with repetition. */
  function Reported(rows: seq<Run>): nat {
    if rows == [] then 0
    else
      var r := rows[|rows| - 1];
      Reported(rows[..|rows| - 1]) + (if r.status.Delivered? then r.eventCount else 0)
  }

  function Covers(r: Run, t: int): nat { if r.status.Delivered? && r.start < t <= r.end then 1 else 0 }

  function Reports(r: Run): nat { if r.status.Delivered? then r.eventCount else 0 }

  function Later(earlier: Option<int>, end: int): Option<int> {
    Some(if earlier.None? then end else Max(earlier.value, end))
  }

  /** Writing one row in the place of a run that was not delivered. */
  lemma {:induction false} UpdateEffect(rows: seq<Run>, i: nat, r: Run, t: int)
    requires i < |rows| && !rows[i].Counts() && !r.status.Partial?
    ensures Covering(rows[i := r], t) == Covering(rows, t) + Covers(r, t)
    ensures Reported(rows[i := r]) == Reported(rows) + Reports(r)
    ensures MaxEnd(rows[i := r]) == if r.status.Delivered? then Later(MaxEnd(rows), r.end) else MaxEnd(rows)
  {
    var n := |rows| - 1;
    if i == n {
      assert rows[i := r][..n] == rows[..n];
    } else {
      UpdateEffect(rows[..n], i, r, t);
      assert rows[i := r][..n] == rows[..n][i := r];
    }
  }

  lemma PutEffect(rows: seq<Run>, r: Run, t: int)
    requires !r.status.Partial? && match Find(rows, r.slot) { case None => true case Some(i) => !rows[i].Counts() }
    ensures Covering(Put(rows, r), t) == Covering(rows, t) + Covers(r, t)
    ensures Reported(Put(rows, r)) == Reported(rows) + Reports(r)
    ensures MaxEnd(Put(rows, r)) == if r.status.Delivered? then Later(MaxEnd(rows), r.end) else MaxEnd(rows)
  {
    match Find(rows, r.slot) {
      case None => assert (rows + [r])[..|rows|] == rows;
      case Some(i) => UpdateEffect(rows, i, r, t);
    }
  }

  lemma {:induction false} EventsAdd(events: seq<int>, a: int, b: int, c: int)
    requires a <= b <= c
    ensures EventsIn(events, a, b) + EventsIn(events, b, c) == EventsIn(events, a, c)
    ensures EventsIn(events, a, a) == 0
  {
    if events != [] {
      EventsAdd(events[..|events| - 1], a, b, c);
    }
  }

  /** The indices of the events in (from, to]. */
  function EventsBetween(events: seq<int>, from: int, to: int): set<nat> {
    set i: nat | i < |events| && from < events[i] <= to
  }

  /** The counted events are exactly those. */
  lemma {:induction false} EventsInCounts(events: seq<int>, from: int, to: int)
    ensures EventsIn(events, from, to) == |EventsBetween(events, from, to)|
  {
    if events != [] {
      var n := |events| - 1;
      EventsInCounts(events[..n], from, to);
      assert EventsBetween(events, from, to) ==
             EventsBetween(events[..n], from, to) + (if from < events[n] <= to then {n} else {});
    }
  }

  ghost predicate Chronological(created: int, sweeps: seq<Sweep>) {
    (forall i | 0 <= i < |sweeps| :: created <= sweeps[i].now) &&
    (forall i, j | 0 <= i < j < |sweeps| :: sweeps[i].now <= sweeps[j].now)
  }

  ghost predicate NoPartial(rows: seq<Run>) {
    forall i | 0 <= i < |rows| :: !rows[i].status.Partial?
  }

  /** What a sweep adds: the period from the last delivered end to now, if it delivers. */
  lemma SweepEffect(rows: seq<Run>, created: int, events: seq<int>, s: Sweep, t: int)
    requires NoPartial(rows) && created <= LastEnd(rows, created) <= s.now
    ensures var end := LastEnd(rows, created);
            var delivers := CanClaim(rows, s.slot, s.now) && s.reply.Sent?;
            var swept := SweepOnce(rows, created, events, s);
            NoPartial(swept) &&
            LastEnd(swept, created) == (if delivers then s.now else end) &&
            Covering(swept, t) == Covering(rows, t) + (if delivers && end < t <= s.now then 1 else 0) &&
            Reported(swept) == Reported(rows) + (if delivers then EventsIn(events, end, s.now) else 0)
  {
    hide Find, Put, Covering, Reported, MaxEnd, EventsIn, RetryAt, CanClaim, AttemptedRun, NoPartial;
    if CanClaim(rows, s.slot, s.now) {
      AttemptFacts(rows, created, events, s);
      var r := AttemptedRun(rows, created, events, s);
      PutEffect(rows, r, t);
      PutKeepsNoPartial(rows, r);
    }
  }

  lemma AttemptFacts(rows: seq<Run>, created: int, events: seq<int>, s: Sweep)
    requires CanClaim(rows, s.slot, s.now)
    ensures var r, end := AttemptedRun(rows, created, events, s), LastEnd(rows, created);
            r.slot == s.slot && !r.status.Partial? && (r.status.Delivered? <==> s.reply.Sent?) &&
            r.start == end && r.end == s.now && r.eventCount == EventsIn(events, end, s.now)
    ensures match Find(rows, s.slot) { case None => true case Some(i) => !rows[i].Counts() }
  {
    hide EventsIn, LastEnd, RetryAt;
  }

  lemma PutKeepsNoPartial(rows: seq<Run>, r: Run)
    requires NoPartial(rows) && !r.status.Partial?
    ensures NoPartial(Put(rows, r))
  {
  }

  /**
   * Coverage: however many attempts failed or crashed, every moment after the rule's creation
   * up to the last delivered end lies in exactly one delivered period, and no other moment in
   * any. So the periods are disjoint and contiguous, and the reported counts add up.
   */
  lemma {:induction false} DeliveredPeriodsPartition(created: int, events: seq<int>, sweeps: seq<Sweep>, n: nat, t: int)
    requires n <= |sweeps| && Chronological(created, sweeps)
    ensures var rows := Swept(created, events, sweeps, n);
            var end := LastEnd(rows, created);
            NoPartial(rows) && created <= end && (n > 0 ==> end <= sweeps[n - 1].now) &&
            Covering(rows, t) == (if created < t <= end then 1 else 0) &&
            Reported(rows) == EventsIn(events, created, end)
  {
    hide SweepOnce, EventsIn, CanClaim;
    if n == 0 {
      EventsAdd(events, created, created, created);
    } else {
      DeliveredPeriodsPartition(created, events, sweeps, n - 1, t);
      var rows, s := Swept(created, events, sweeps, n - 1), sweeps[n - 1];
      assert Swept(created, events, sweeps, n) == SweepOnce(rows, created, events, s);
      assert n > 1 ==> sweeps[n - 2].now <= s.now;
      SweepEffect(rows, created, events, s, t);
      EventsAdd(events, created, LastEnd(rows, created), s.now);
    }
  }

  /** Every event up to the last delivered end is in exactly one delivered digest. */
  lemma EachEventDeliveredOnce(created: int, events: seq<int>, sweeps: seq<Sweep>, n: nat, k: nat)
    requires n <= |sweeps| && Chronological(created, sweeps) && k < |events|
    requires created < events[k] <= LastEnd(Swept(created, events, sweeps, n), created)
    ensures exists i :: 0 <= i < |Swept(created, events, sweeps, n)| &&
              Covers(Swept(created, events, sweeps, n)[i], events[k]) == 1 &&
              forall j | 0 <= j < |Swept(created, events, sweeps, n)| && j != i ::
                Covers(Swept(created, events, sweeps, n)[j], events[k]) == 0
  {
    DeliveredPeriodsPartition(created, events, sweeps, n, events[k]);
    var i := OneCovers(Swept(created, events, sweeps, n), events[k]);
  }

  lemma {:induction false} NoneCovers(rows: seq<Run>, t: int)
    requires Covering(rows, t) == 0
    ensures forall i | 0 <= i < |rows| :: Covers(rows[i], t) == 0
  {
    if rows != [] {
      NoneCovers(rows[..|rows| - 1], t);
    }
  }

  lemma {:induction false} OneCovers(rows: seq<Run>, t: int) returns (i: nat)
    requires Covering(rows, t) == 1
    ensures i < |rows| && Covers(rows[i], t) == 1
    ensures forall j | 0 <= j < |rows| && j != i :: Covers(rows[j], t) == 0
  {
    var n := |rows| - 1;
    if Covers(rows[n], t) == 1 {
      NoneCovers(rows[..n], t);
      i := n;
    } else {
      i := OneCovers(rows[..n], t);
    }
  }

  // The sweep over the rules

  datatype Rule = Rule(id: nat, created: int, schedule: Schedule, digestTime: int, active: bool)

  datatype SweepResult = SweepResult(rulesChecked: nat, digestsCreated: nat, eventsIncluded: nat)

  function RunsIn(runs: map<nat, seq<Run>>, rule: nat): seq<Run> {
    if rule in runs then runs[rule] else []
  }

  /** What one rule adds to the result: checked if it is an active digest rule, created if it delivered or failed. */
  function Counted(
      r: SweepResult, rule: Rule, local: Local, rows: seq<Run>, events: seq<int>, now: int, reply: Reply): SweepResult
  {
    var checked := if rule.active && !rule.schedule.Immediate? then 1 else 0;
    if Sweeps(rule, local) && CanClaim(rows, SlotOf(rule, local), now) && !reply.Crashed? then
      SweepResult(r.rulesChecked + checked, r.digestsCreated + 1,
                  r.eventsIncluded + EventsIn(events, LastEnd(rows, rule.created), now))
    else r.(rulesChecked := r.rulesChecked + checked)
  }

  function Tally(runs: map<nat, seq<Run>>, rules: seq<Rule>, locals: seq<Local>, events: map<nat, seq<int>>, now: int,
                 replies: map<nat, Reply>, n: nat): SweepResult
    requires n <= |rules| == |locals|
  {
    if n == 0 then SweepResult(0, 0, 0)
    else
      var id := rules[n - 1].id;
      Counted(Tally(runs, rules, locals, events, now, replies, n - 1), rules[n - 1], locals[n - 1], RunsIn(runs, id),
              EventsOf(events, id), now, ReplyOf(replies, id))
  }

  class DigestTable {
    var runs: map<nat, seq<Run>>

    constructor ()
      ensures runs == map[]
    {
      runs := map[];
    }

    function RunsOf(rule: nat): seq<Run>
      reads this
    {
      RunsIn(runs, rule)
    }

    /** Creates or leases the run of a period; tells the attempt number when it succeeds. */
    method ClaimRun(rule: nat, slot: Slot, start: int, count: nat, now: int) returns (attempts: Option<nat>)
      modifies this
      ensures RunsOf(rule) == Claim(old(RunsOf(rule)), slot, start, count, now)
      ensures forall other | other != rule :: RunsIn(runs, other) == RunsIn(old(runs), other)
      ensures attempts.Some? <==> CanClaim(old(RunsOf(rule)), slot, now)
      ensures attempts.Some? ==> attempts.value == ClaimedRun(old(RunsOf(rule)), slot, start, count, now).attempts
    {
      var rows := RunsOf(rule);
      if !CanClaim(rows, slot, now) {
        return None;
      }
      var r := ClaimedRun(rows, slot, start, count, now);
      runs := runs[rule := Put(rows, r)];
      attempts := Some(r.attempts);
    }

    /** Records the outcome of a delivery if the run is still leased. */
    method FinishRun(rule: nat, slot: Slot, ok: bool, now: int, attempts: nat)
      modifies this
      ensures RunsOf(rule) == Finish(old(RunsOf(rule)), slot, ok, now, attempts)
      ensures forall other | other != rule :: RunsIn(runs, other) == RunsIn(old(runs), other)
    {
      var rows := RunsOf(rule);
      runs := runs[rule := Finish(rows, slot, ok, now, attempts)];
    }

    /** One due rule: plan the period from the last delivered end, claim it, deliver, record. */
    method ProcessRule(rule: Rule, slot: Slot, events: seq<int>, now: int, reply: Reply)
      returns (created: bool, included: nat)
      modifies this
      ensures RunsOf(rule.id) == SweepOnce(old(RunsOf(rule.id)), rule.created, events, Sweep(now, slot, reply))
      ensures forall other | other != rule.id :: RunsIn(runs, other) == RunsIn(old(runs), other)
      ensures created <==> CanClaim(old(RunsOf(rule.id)), slot, now) && !reply.Crashed?
      ensures included == if created then EventsIn(events, LastEnd(old(RunsOf(rule.id)), rule.created), now) else 0
    {
      var start := LastEnd(RunsOf(rule.id), rule.created);
      var count := EventsIn(events, start, now);
      ghost var before := RunsOf(rule.id);
      var attempts := ClaimRun(rule.id, slot, start, count, now);
      if attempts.None? {
        return false, 0;
      }
      SweepIsTwoSteps(before, rule.created, events, Sweep(now, slot, reply));
      if reply.Crashed? {
        return false, 0;
      }
      FinishRun(rule.id, slot, reply.Sent?, now, attempts.value);
      return true, count;
    }

    /** Every active digest rule that is due is swept once, in order, and no other run is touched. */
    method ProcessDue(
        rules: seq<Rule>, locals: seq<Local>, events: map<nat, seq<int>>, now: int, replies: map<nat, Reply>)
      returns (result: SweepResult)
      requires |locals| == |rules| && forall i, j | 0 <= i < j < |rules| :: rules[i].id != rules[j].id
      modifies this
      ensures result == Tally(old(runs), rules, locals, events, now, replies, |rules|)
      ensures SweptRules(old(runs), runs, rules, locals, events, now, replies, |rules|)
    {
      hide *;
      result := SweepResult(0, 0, 0);
      NothingSwept(runs, rules, locals, events, now, replies);
      for i := 0 to |rules|
        invariant result == Tally(old(runs), rules, locals, events, now, replies, i)
        invariant SweptRules(old(runs), runs, rules, locals, events, now, replies, i)
      {
        ghost var before := runs;
        ghost var counts := result;
        result := SweepRule(rules[i], locals[i], events, now, replies, result);
        SweptOneMore(old(runs), before, runs, rules, locals, events, now, replies, i, counts);
      }
    }

    method SweepRule(rule: Rule, local: Local, events: map<nat, seq<int>>, now: int, replies: map<nat, Reply>,
                     result: SweepResult) returns (counted: SweepResult)
      modifies this
      ensures RunsIn(runs, rule.id) == RowsAfter(RunsIn(old(runs), rule.id), rule, local, events, now, replies)
      ensures forall other | other != rule.id :: RunsIn(runs, other) == RunsIn(old(runs), other)
      ensures counted == Counted(result, rule, local, RunsIn(old(runs), rule.id), EventsOf(events, rule.id), now,
                                 ReplyOf(replies, rule.id))
    {
      hide SweepOnce, CanClaim, LastEnd, EventsIn;
      counted := result;
      if rule.active && !rule.schedule.Immediate? {
        counted := counted.(rulesChecked := counted.rulesChecked + 1);
      }
      if Sweeps(rule, local) {
        var created, included := ProcessRule(rule, SlotOf(rule, local), EventsOf(events, rule.id), now,
                                             ReplyOf(replies, rule.id));
        if created {
          counted := counted.(digestsCreated := counted.digestsCreated + 1,
                              eventsIncluded := counted.eventsIncluded + included);
        }
      }
    }
  }

  /** The runs of a rule after a sweep: those of one attempt on its current period if the rule is due. */
  function RowsAfter(rows: seq<Run>, rule: Rule, local: Local, events: map<nat, seq<int>>, now: int,
                     replies: map<nat, Reply>): seq<Run>
  {
    if Sweeps(rule, local)
    then SweepOnce(rows, rule.created, EventsOf(events, rule.id),
                   Sweep(now, SlotOf(rule, local), ReplyOf(replies, rule.id)))
    else rows
  }

  /** A sweep touches the runs of a rule only if it is active, due, and its period can be claimed. */
  lemma SweptOnlyWhenDue(rows: seq<Run>, rule: Rule, local: Local, events: map<nat, seq<int>>, now: int,
                         replies: map<nat, Reply>)
    ensures RowsAfter(rows, rule, local, events, now, replies) != rows ==>
              rule.active && rule.schedule != Immediate && rule.digestTime <= local.second &&
              PeriodKey(rule.schedule, local) != PeriodKey(rule.schedule, Local(local.day - 1, local.second)) &&
              CanClaim(rows, SlotOf(rule, local), now)
  {
    DueIff(rule.schedule, local, rule.digestTime);
  }

  /** What the sweep of a due rule leaves, if it can claim the period: the outcome, the period and its events. */
  lemma SweptRun(rows: seq<Run>, rule: Rule, local: Local, events: map<nat, seq<int>>, now: int,
                 replies: map<nat, Reply>)
    requires Sweeps(rule, local) && CanClaim(rows, SlotOf(rule, local), now)
    ensures var after := RowsAfter(rows, rule, local, events, now, replies);
            var i := Find(after, SlotOf(rule, local));
            i.Some? &&
            var r := after[i.value];
            (r.status == Delivered <==> rule.id !in replies || replies[rule.id] == Sent) &&
            (r.status == FailedRun <==> rule.id in replies && replies[rule.id] == NotSent) &&
            (r.status == Running <==> rule.id in replies && replies[rule.id] == Crashed) &&
            r.start == LastEnd(rows, rule.created) && r.end == now &&
            r.eventCount == if rule.id in events then |EventsBetween(events[rule.id], r.start, now)| else 0
  {
    var given := if rule.id in events then events[rule.id] else [];
    EventsInCounts(given, LastEnd(rows, rule.created), now);
    assert EventsOf(events, rule.id) == given;
    var s := Sweep(now, SlotOf(rule, local), ReplyOf(replies, rule.id));
    hide EventsIn, LastEnd, RetryAt, CanClaim, EventsBetween;
    var r := AttemptedRun(rows, rule.created, given, s);
    FindPut(rows, r);
    if rule.id !in events {
      NoEventsBetween(LastEnd(rows, rule.created), now);
    }
  }

  lemma NoEventsBetween(from: int, to: int)
    ensures EventsBetween([], from, to) == {}
  {
  }

  lemma FindPut(rows: seq<Run>, r: Run)
    ensures Find(Put(rows, r), r.slot).Some? && Put(rows, r)[Find(Put(rows, r), r.slot).value] == r
  {
    match Find(rows, r.slot) {
      case None => FindAtEnd(rows, r);
      case Some(i) => FindUpdated(rows, i, r);
    }
  }

  /** The slot of a sweep: two due moments of a rule share it exactly when they fall on the same local day. */
  lemma OneSlotPerDueDay(rule: Rule, a: Local, b: Local)
    requires Sweeps(rule, a) && Sweeps(rule, b)
    ensures SlotOf(rule, a) == SlotOf(rule, b) <==> a.day == b.day
  {
    DueOnOneDayIsOneSlot(rule.schedule, a, b, rule.digestTime);
  }

  /** Periods of the two schedules are never confused. */
  lemma SlotsBySchedule(rule: Rule, other: Rule, a: Local, b: Local)
    requires SlotOf(rule, a) == SlotOf(other, b)
    ensures rule.schedule == other.schedule
  {
  }

  /** The rule counts as checked: it is active and has a digest schedule, due or not. */
  predicate IsDigestRule(rule: Rule) {
    rule.active && (rule.schedule == Daily || rule.schedule == Weekly)
  }

  /** The sweep attempts the digest of the rule, and ends the attempt. */
  predicate IsAttempted(runs: map<nat, seq<Run>>, rule: Rule, local: Local, now: int, replies: map<nat, Reply>) {
    Sweeps(rule, local) && CanClaim(RunsIn(runs, rule.id), SlotOf(rule, local), now) &&
    ReplyOf(replies, rule.id) in {Sent, NotSent}
  }

  function DigestRules(rules: seq<Rule>, n: nat): set<nat>
    requires n <= |rules|
  {
    set i: nat | i < n && IsDigestRule(rules[i])
  }

  function Attempted(runs: map<nat, seq<Run>>, rules: seq<Rule>, locals: seq<Local>, now: int,
                     replies: map<nat, Reply>, n: nat): set<nat>
    requires n <= |rules| == |locals|
  {
    set i: nat | i < n && IsAttempted(runs, rules[i], locals[i], now, replies)
  }

  lemma CountedMeans(
      r: SweepResult, runs: map<nat, seq<Run>>, rule: Rule, local: Local, events: seq<int>, now: int,
      replies: map<nat, Reply>)
    ensures var c := Counted(r, rule, local, RunsIn(runs, rule.id), events, now, ReplyOf(replies, rule.id));
            c.rulesChecked == r.rulesChecked + (if IsDigestRule(rule) then 1 else 0) &&
            c.digestsCreated == r.digestsCreated + (if IsAttempted(runs, rule, local, now, replies) then 1 else 0) &&
            c.eventsIncluded == r.eventsIncluded +
                                (if IsAttempted(runs, rule, local, now, replies)
                                 then |EventsBetween(events, LastEnd(RunsIn(runs, rule.id), rule.created), now)| else 0)
  {
    EventsInCounts(events, LastEnd(RunsIn(runs, rule.id), rule.created), now);
    hide IsDue, CanClaim, EventsIn, LastEnd, PeriodKey;
  }

  lemma OneMoreRule(rules: seq<Rule>, n: nat)
    requires 0 < n <= |rules|
    ensures |DigestRules(rules, n)| == |DigestRules(rules, n - 1)| + (if IsDigestRule(rules[n - 1]) then 1 else 0)
  {
    hide IsDigestRule;
    var before := DigestRules(rules, n - 1);
    assert DigestRules(rules, n) == if IsDigestRule(rules[n - 1]) then before + {n - 1} else before;
  }

  lemma OneMoreAttempt(runs: map<nat, seq<Run>>, rules: seq<Rule>, locals: seq<Local>, now: int,
                       replies: map<nat, Reply>, n: nat)
    requires 0 < n <= |rules| == |locals|
    ensures |Attempted(runs, rules, locals, now, replies, n)| ==
            |Attempted(runs, rules, locals, now, replies, n - 1)| +
            (if IsAttempted(runs, rules[n - 1], locals[n - 1], now, replies) then 1 else 0)
  {
    hide IsAttempted;
    var before := Attempted(runs, rules, locals, now, replies, n - 1);
    assert Attempted(runs, rules, locals, now, replies, n) ==
           if IsAttempted(runs, rules[n - 1], locals[n - 1], now, replies) then before + {n - 1} else before;
  }

  /** The result counts the digest rules, and those whose digest was sent or failed. */
  lemma {:induction false} TallyCounts(
      runs: map<nat, seq<Run>>, rules: seq<Rule>, locals: seq<Local>, events: map<nat, seq<int>>, now: int,
      replies: map<nat, Reply>, n: nat)
    requires n <= |rules| == |locals|
    ensures var r := Tally(runs, rules, locals, events, now, replies, n);
            r.rulesChecked == |DigestRules(rules, n)| &&
            r.digestsCreated == |Attempted(runs, rules, locals, now, replies, n)|
  {
    hide Counted, IsDigestRule, IsAttempted;
    if n > 0 {
      TallyCounts(runs, rules, locals, events, now, replies, n - 1);
      CountedMeans(Tally(runs, rules, locals, events, now, replies, n - 1), runs, rules[n - 1], locals[n - 1],
                   EventsOf(events, rules[n - 1].id), now, replies);
      OneMoreRule(rules, n);
      OneMoreAttempt(runs, rules, locals, now, replies, n);
    }
  }

  /** The first n rules have been swept, and the runs of all others stand. */
  ghost predicate SweptRules(
    before: map<nat, seq<Run>>, after: map<nat, seq<Run>>, rules: seq<Rule>, locals: seq<Local>,
    events: map<nat, seq<int>>, now: int, replies: map<nat, Reply>, n: nat)
    requires n <= |rules| == |locals|
  {
    (forall i | 0 <= i < n ::
       RunsIn(after, rules[i].id) ==
           RowsAfter(RunsIn(before, rules[i].id), rules[i], locals[i], events, now, replies)) &&
    (forall other: nat | (forall i | 0 <= i < n :: rules[i].id != other) ::
        RunsIn(after, other) == RunsIn(before, other))
  }

  lemma NothingSwept(
      before: map<nat, seq<Run>>, rules: seq<Rule>, locals: seq<Local>, events: map<nat, seq<int>>, now: int,
      replies: map<nat, Reply>)
    requires |rules| == |locals|
    ensures SweepResult(0, 0, 0) == Tally(before, rules, locals, events, now, replies, 0)
    ensures SweptRules(before, before, rules, locals, events, now, replies, 0)
  {
  }

  lemma SweptOneMore(
      first: map<nat, seq<Run>>, before: map<nat, seq<Run>>, after: map<nat, seq<Run>>, rules: seq<Rule>,
      locals: seq<Local>, events: map<nat, seq<int>>, now: int, replies: map<nat, Reply>, n: nat, result: SweepResult)
    requires n < |rules| == |locals| && forall i, j | 0 <= i < j < |rules| :: rules[i].id != rules[j].id
    requires SweptRules(first, before, rules, locals, events, now, replies, n)
    requires var id := rules[n].id;
             RunsIn(after, id) == RowsAfter(RunsIn(before, id), rules[n], locals[n], events, now, replies)
    requires forall other | other != rules[n].id :: RunsIn(after, other) == RunsIn(before, other)
    requires result == Tally(first, rules, locals, events, now, replies, n)
    ensures SweptRules(first, after, rules, locals, events, now, replies, n + 1)
    ensures Counted(result, rules[n], locals[n], RunsIn(before, rules[n].id), EventsOf(events, rules[n].id), now,
                    ReplyOf(replies, rules[n].id)) ==
            Tally(first, rules, locals, events, now, replies, n + 1)
  {
    hide RunsIn, RowsAfter, Counted;
  }

  predicate Sweeps(rule: Rule, local: Local) {
    rule.active && IsDue(rule.schedule, local, rule.digestTime)
  }

  function SlotOf(rule: Rule, local: Local): Slot { Slot(rule.schedule, PeriodKey(rule.schedule, local)) }

  function EventsOf(events: map<nat, seq<int>>, rule: nat): seq<int> {
    if rule in events then events[rule] else []
  }

  function ReplyOf(replies: map<nat, Reply>, rule: nat): Reply {
    if rule in replies then replies[rule] else Sent
  }
}
