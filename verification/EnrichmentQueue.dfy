/** The enrichment queue: the row transition of every statement, and what all runs of them keep. */
module EnrichmentQueue {
  import opened Common

  datatype Status = Queued | Running | Failed | Dead | BlockedConfig | BlockedUpstream | Succeeded

  datatype JobKey = JobKey(provider: string, idempotencyKey: string)

  datatype Lock = Lock(at: int, owner: string)

  /** One row; times are in seconds and `permanent` is the flag inside the stored error. */
  datatype Job = Job(
    status: Status, attempts: int, maxAttempts: int, priority: int, availableAt: int, createdAt: int,
    lock: Option<Lock>, permanent: bool, finishedAt: Option<int>)
  {
    predicate PermanentlyDead() { status.Dead? && permanent }

    predicate Reopenable() { status.Dead? && !permanent }

    predicate Exhausted() { attempts >= maxAttempts }

    predicate Startable(now: int) {
      (status.Queued? || status.Failed?) && availableAt <= now && !Exhausted()
    }
  }

  type Table = map<JobKey, Job>

  /** What a failing worker reports; `marked` says that the error itself carries the permanent flag. */
  datatype Failure = Failure(blockedConfig: bool, blockedUpstream: bool, permanent: bool, marked: bool)

  /** The counters that a failing worker read from the row, some time before it writes. */
  datatype Seen = Seen(attempts: int, maxAttempts: int)

  datatype Event =
    | Enqueue(key: JobKey, priority: int, maxAttempts: int, now: int)
    | Start(key: JobKey, worker: string, now: int)
    | Claim(keys: seq<JobKey>, reactivated: set<string>, worker: string, now: int)
    | Complete(key: JobKey, now: int)
    | Fail(key: JobKey, failure: Failure, seen: Seen, now: int)
    | Defer(key: JobKey, refund: bool, retryAfter: Option<int>, now: int)
    | RecoverStale(staleAfter: int, now: int)
    | BlockStatic(provider: string, now: int)

  // Row transitions

  /** Minutes until a failed job may run again. */
  function RetryDelay(attempts: int): int {
    Min(24 * 60, Pow2(Min(Max(attempts, 1), 10)))
  }

  lemma {:induction false} PowGrows(n: nat)
    ensures 1 <= Pow2(n) && Pow2(n + 1) == 2 * Pow2(n)
  {
    if n > 0 {
      PowGrows(n - 1);
    }
  }

  /** The delay doubles with each of the first ten attempts and then stays; the day-long cap is never met. */
  lemma RetryDelayDoubles(attempts: int)
    requires 1 <= attempts
    ensures RetryDelay(attempts + 1) == if attempts < 10 then 2 * RetryDelay(attempts) else RetryDelay(attempts)
    ensures 2 <= RetryDelay(attempts) <= 1024 < 24 * 60
  {
    var n := Min(attempts, 10);
    assert Pow2(10) == 1024 by {
      assert Pow2(5) == 32;
    }
    PowGrows(n);
    assert Pow2(n) <= 1024 by { PowBelow(n); }
    if n < 10 { PowBelow(n + 1); }
    PowGrows(n - 1);
  }

  lemma {:induction false} PowBelow(n: nat)
    requires n <= 10
    ensures Pow2(n) <= 1024
    decreases 10 - n
  {
    if n < 10 {
      PowBelow(n + 1);
    } else {
      assert Pow2(5) == 32;
    }
  }

  function Enqueued(row: Option<Job>, priority: int, maxAttempts: int, now: int): Job {
    match row
    case None => Job(Queued, 0, maxAttempts, priority, now, now, None, false, None)
    case Some(j) =>
      var updated := j.(priority := priority, maxAttempts := maxAttempts);
      if j.Reopenable() then
        updated.(attempts := 0, status := Queued, availableAt := now, finishedAt := None)
      else updated
  }

  function Started(j: Job, worker: string, now: int): Job {
    j.(status := Running, attempts := j.attempts + 1, lock := Some(Lock(now, worker)), permanent := false)
  }

  function Completed(j: Job, now: int): Job {
    j.(status := Succeeded, permanent := false, lock := None, finishedAt := Some(now))
  }

  function CountersOf(j: Job): Seen { Seen(j.attempts, j.maxAttempts) }

  /**
   * The row after a failure: whether it is terminal, and when it is retried, depends on the
   * counters that were read.
   */
  function FailedRow(j: Job, f: Failure, seen: Seen, now: int): Job {
    var terminal := f.permanent || seen.attempts >= seen.maxAttempts;
    var status :=
      if f.blockedConfig then BlockedConfig
      else if f.blockedUpstream then BlockedUpstream
      else if terminal then Dead
      else Failed;
    j.(status := status, permanent := f.permanent || f.marked, lock := None,
       availableAt := if f.blockedConfig || f.blockedUpstream then now else now + 60 * RetryDelay(seen.attempts),
       finishedAt := if terminal then Some(now) else None)
  }

  function Deferred(j: Job, refund: bool, retryAfter: Option<int>, now: int): Job {
    j.(status := Queued, lock := None,
       availableAt := if retryAfter.Some? then now + Max(0, retryAfter.value) else j.availableAt,
       attempts := if refund then Max(j.attempts - 1, 0) else j.attempts)
  }

  predicate Stale(j: Job, staleAfter: int, now: int) {
    j.status.Running? && (j.lock.None? || j.lock.value.at < now - staleAfter)
  }

  function Recovered(j: Job): Job {
    j.(status := Queued, lock := None)
  }

  predicate StaticallyBlockable(k: JobKey, j: Job, provider: string) {
    k.provider == provider && (j.status.Queued? || j.status.Failed? || j.status.BlockedConfig?)
  }

  function Blockable(t: Table, provider: string): set<JobKey> {
    set k | k in t && StaticallyBlockable(k, t[k], provider)
  }

  function BlockedRow(j: Job, now: int): Job {
    j.(status := BlockedUpstream, lock := None, permanent := false, finishedAt := Some(now))
  }

  predicate Claimable(k: JobKey, j: Job, reactivated: set<string>, now: int) {
    (j.status.Queued? || j.status.Failed? ||
     ((j.status.BlockedConfig? || j.status.BlockedUpstream?) && k.provider in reactivated)) &&
    j.availableAt <= now && !j.Exhausted()
  }

  function Lookup(t: Table, k: JobKey): Option<Job> {
    if k in t then Some(t[k]) else None
  }

  /** The row of k after the event. */
  function RowAfter(t: Table, e: Event, k: JobKey): Option<Job> {
    if e.Enqueue? && e.key == k then Some(Enqueued(Lookup(t, k), e.priority, e.maxAttempts, e.now))
    else if k !in t then None
    else
      var j := t[k];
      Some(match e
           case Enqueue(_, _, _, _) => j
           case Start(key, worker, now) => if key == k && j.Startable(now) then Started(j, worker, now) else j
           case Claim(keys, _, worker, now) => if k in keys then Started(j, worker, now) else j
           case Complete(key, now) => if key == k then Completed(j, now) else j
           case Fail(key, f, seen, now) => if key == k then FailedRow(j, f, seen, now) else j
           case Defer(key, refund, retryAfter, now) => if key == k then Deferred(j, refund, retryAfter, now) else j
           case RecoverStale(staleAfter, now) => if Stale(j, staleAfter, now) then Recovered(j) else j
           case BlockStatic(provider, now) => if StaticallyBlockable(k, j, provider) then BlockedRow(j, now) else j)
  }

  function Apply(t: Table, e: Event): Table {
    var keys := if e.Enqueue? then t.Keys + {e.key} else t.Keys;
    map k | k in keys :: RowAfter(t, e, k).value
  }

  lemma RowOfApply(t: Table, e: Event, k: JobKey)
    ensures Lookup(Apply(t, e), k) == RowAfter(t, e, k)
  {
  }

  // Runs

  /** What the statements themselves demand: claims take claimable rows, and blocks exclude each other. */
  ghost predicate Legal(t: Table, e: Event) {
    match e
    case Claim(keys, reactivated, _, now) => forall k | k in keys :: k in t && Claimable(k, t[k], reactivated, now)
    case Fail(_, f, _, _) => !(f.blockedConfig && f.blockedUpstream)
    case _ => true
  }

  /** The caller's part: re-enqueueing never lowers the number of attempts. */
  ghost predicate NeverLowers(t: Table, e: Event) {
    e.Enqueue? ==> 0 <= e.maxAttempts && (e.key in t ==> t[e.key].maxAttempts <= e.maxAttempts)
  }

  /** The worker's part: only a job that is running is finished or deferred. */
  ghost predicate Leased(t: Table, e: Event) {
    e.Complete? || e.Fail? || e.Defer? ==> e.key in t && t[e.key].status.Running?
  }

  /** The table after the first n events. */
  function After(events: seq<Event>, n: nat): Table
    requires n <= |events|
  {
    if n == 0 then map[] else Apply(After(events, n - 1), events[n - 1])
  }

  ghost predicate LegalRun(events: seq<Event>) {
    forall i | 0 <= i < |events| :: LegalAt(events, i)
  }

  ghost predicate LegalAt(events: seq<Event>, i: nat)
    requires i < |events|
  {
    Legal(After(events, i), events[i]) && NeverLowers(After(events, i), events[i]) &&
    (events[i].Fail? ==> ReadBefore(events, i, events[i].key, events[i].seen))
  }

  /** The counters of the row at some moment up to event i. */
  ghost predicate ReadBefore(events: seq<Event>, i: nat, k: JobKey, seen: Seen)
    requires i <= |events|
  {
    exists m | 0 <= m <= i :: ReadAt(events, m, k, seen)
  }

  ghost predicate ReadAt(events: seq<Event>, m: nat, k: JobKey, seen: Seen)
    requires m <= |events|
  {
    k in After(events, m) && CountersOf(After(events, m)[k]) == seen
  }

  ghost predicate LeasedRun(events: seq<Event>) {
    forall i | 0 <= i < |events| :: LeasedAt(events, i)
  }

  ghost predicate LeasedAt(events: seq<Event>, i: nat)
    requires i < |events|
  {
    Leased(After(events, i), events[i])
  }

  // What every run keeps, leases or not

  /** A row is locked iff it is running, and has used at most its attempts. */
  ghost predicate BoundRow(j: Job) {
    (j.lock.Some? <==> j.status.Running?) && 0 <= j.attempts <= j.maxAttempts
  }

  /** Besides, it can be retried if it failed, and is dead only for a permanent error or for want of attempts. */
  ghost predicate SafeRow(j: Job) {
    BoundRow(j) && (j.status.Failed? ==> !j.Exhausted()) && (j.status.Dead? ==> j.permanent || j.Exhausted())
  }

  ghost predicate Bound(t: Table) {
    forall k | k in t :: BoundRow(t[k])
  }

  ghost predicate Safe(t: Table) {
    forall k | k in t :: SafeRow(t[k])
  }

  lemma ApplyKeepsBoundRow(t: Table, e: Event, k: JobKey)
    requires Legal(t, e) && NeverLowers(t, e) && (k in t ==> BoundRow(t[k]))
    ensures k in Apply(t, e) ==> BoundRow(Apply(t, e)[k])
  {
    hide RetryDelay;
    RowOfApply(t, e, k);
  }

  /** Over every run, even one whose workers outlive their leases and write what they read long ago. */
  lemma {:induction false} EveryRunIsBound(events: seq<Event>, n: nat)
    requires LegalRun(events) && n <= |events|
    ensures Bound(After(events, n))
  {
    if n > 0 {
      EveryRunIsBound(events, n - 1);
      assert LegalAt(events, n - 1);
      forall k | k in After(events, n) ensures BoundRow(After(events, n)[k]) {
        ApplyKeepsBoundRow(After(events, n - 1), events[n - 1], k);
      }
    }
  }

  // When FAILED and DEAD keep their meaning

  /** What was read still tells the truth about the row when it is written, or does not matter. */
  predicate FailsSafely(j: Job, f: Failure, seen: Seen) {
    f.blockedConfig || f.blockedUpstream || f.permanent ||
    (if seen.attempts >= seen.maxAttempts then f.marked || j.Exhausted() else !j.Exhausted())
  }

  /** One failure: the row is safe again exactly under that condition. */
  lemma FailIsSafeIff(j: Job, f: Failure, seen: Seen, now: int)
    requires SafeRow(j)
    ensures SafeRow(FailedRow(j, f, seen, now)) <==> FailsSafely(j, f, seen)
  {
    hide RetryDelay;
  }

  predicate WritesSafely(t: Table, e: Event) {
    e.Fail? && e.key in t ==> FailsSafely(t[e.key], e.failure, e.seen)
  }

  lemma StepIsSafeIff(t: Table, e: Event)
    requires Legal(t, e) && NeverLowers(t, e) && Safe(t)
    ensures Safe(Apply(t, e)) <==> WritesSafely(t, e)
  {
    hide Apply, Legal, NeverLowers, RowAfter, SafeRow, FailsSafely;
    var next := Apply(t, e);
    forall k | k in next && !(e.Fail? && e.key == k) ensures SafeRow(next[k]) {
      OtherRowsStaySafe(t, e, k);
    }
    if e.Fail? && e.key in t {
      RowOfFailure(t, e);
      FailIsSafeIff(t[e.key], e.failure, e.seen, e.now);
    } else if e.Fail? {
      NoRowNoFailure(t, e);
    }
  }

  lemma OtherRowsStaySafe(t: Table, e: Event, k: JobKey)
    requires Legal(t, e) && NeverLowers(t, e) && (k in t ==> SafeRow(t[k])) && !(e.Fail? && e.key == k)
    ensures k in Apply(t, e) ==> SafeRow(Apply(t, e)[k])
  {
    hide RetryDelay;
    RowOfApply(t, e, k);
  }

  lemma RowOfFailure(t: Table, e: Event)
    requires e.Fail? && e.key in t
    ensures e.key in Apply(t, e) && Apply(t, e)[e.key] == FailedRow(t[e.key], e.failure, e.seen, e.now)
  {
    RowOfApply(t, e, e.key);
  }

  lemma NoRowNoFailure(t: Table, e: Event)
    requires e.Fail? && e.key !in t
    ensures e.key !in Apply(t, e)
  {
    RowOfApply(t, e, e.key);
  }

  ghost predicate SafeAt(events: seq<Event>, m: nat)
    requires m <= |events|
  {
    Safe(After(events, m))
  }

  ghost predicate WritesSafelyAt(events: seq<Event>, m: nat)
    requires m < |events|
  {
    WritesSafely(After(events, m), events[m])
  }

  /** Over any run, the rows are safe throughout if and only if every failure is written under the condition. */
  lemma {:induction false} RunIsSafeIff(events: seq<Event>, n: nat)
    requires LegalRun(events) && n <= |events|
    ensures (forall m | 0 <= m <= n :: SafeAt(events, m)) <==> (forall m | 0 <= m < n :: WritesSafelyAt(events, m))
  {
    if n > 0 {
      RunIsSafeIff(events, n - 1);
      if SafeAt(events, n - 1) {
        NextIsSafeIff(events, n - 1);
      }
    } else {
      assert SafeAt(events, 0);
    }
    hide *;
  }

  lemma NextIsSafeIff(events: seq<Event>, m: nat)
    requires LegalRun(events) && m < |events| && SafeAt(events, m)
    ensures SafeAt(events, m + 1) <==> WritesSafelyAt(events, m)
  {
    hide Legal, NeverLowers, Apply, Safe, WritesSafely;
    assert LegalAt(events, m);
    StepIsSafeIff(After(events, m), events[m]);
  }

  /**
   * The failing worker read the counters at moment m, holds its lease from then on, and nobody
   * raises the limit meanwhile.
   */
  ghost predicate HoldsFrom(events: seq<Event>, m: nat, i: nat)
    requires m <= i < |events| && events[i].Fail?
  {
    ReadAt(events, m, events[i].key, events[i].seen) &&
    forall q | m <= q <= i :: RunsUnraised(events, q, events[i].key, events[i].seen.maxAttempts)
  }

  ghost predicate RunsUnraised(events: seq<Event>, q: nat, k: JobKey, limit: int)
    requires q < |events|
  {
    k in After(events, q) && After(events, q)[k].status.Running? && After(events, q)[k].maxAttempts == limit
  }

  lemma RunningKeepsAttempts(t: Table, e: Event, k: JobKey)
    requires Legal(t, e) && k in t && t[k].status.Running?
    requires k in Apply(t, e) && Apply(t, e)[k].status.Running?
    ensures Apply(t, e)[k].attempts == t[k].attempts
  {
    hide RetryDelay;
    RowOfApply(t, e, k);
  }

  /** What such a worker read is still what the row says. */
  lemma {:induction false} HeldCountersStand(events: seq<Event>, m: nat, i: nat, q: nat)
    requires LegalRun(events) && m <= q <= i < |events| && events[i].Fail? && HoldsFrom(events, m, i)
    ensures ReadAt(events, q, events[i].key, events[i].seen)
  {
    hide Legal, NeverLowers, Apply, ReadBefore;
    assert RunsUnraised(events, q, events[i].key, events[i].seen.maxAttempts);
    if m < q {
      HeldCountersStand(events, m, i, q - 1);
      assert RunsUnraised(events, q - 1, events[i].key, events[i].seen.maxAttempts);
      assert LegalAt(events, q - 1);
      RunningKeepsAttempts(After(events, q - 1), events[q - 1], events[i].key);
    }
  }

  /** Failures come only from lease holders whose limit is not raised between reading and writing. */
  ghost predicate HeldRun(events: seq<Event>) {
    forall i | 0 <= i < |events| && events[i].Fail? :: HeldAt(events, i)
  }

  ghost predicate HeldAt(events: seq<Event>, i: nat)
    requires i < |events| && events[i].Fail?
  {
    exists m | 0 <= m <= i :: HoldsFrom(events, m, i)
  }

  /** So such runs keep every row safe. */
  lemma HeldRunIsSafe(events: seq<Event>, n: nat)
    requires LegalRun(events) && HeldRun(events) && n <= |events|
    ensures Safe(After(events, n))
  {
    hide LegalAt, HoldsFrom, Safe, Apply;
    forall i | 0 <= i < n ensures WritesSafelyAt(events, i) {
      if events[i].Fail? {
        assert HeldAt(events, i);
        var m :| 0 <= m <= i && HoldsFrom(events, m, i);
        HeldCountersStand(events, m, i, i);
      }
    }
    RunIsSafeIff(events, n);
    assert SafeAt(events, n);
  }

  // What goes wrong otherwise

  /**
   * A worker whose lease was recovered reads its counters, the next worker takes the last attempt, and the first one
   * writes its failure.
   */
  function LateFailure(k: JobKey, staleAfter: int, start: int, again: int, late: int): seq<Event> {
    [Enqueue(k, 100, 2, start), Claim([k], {}, "first", start), RecoverStale(staleAfter, again),
     Claim([k], {}, "second", again), Fail(k, Failure(false, false, false, false), Seen(1, 2), late)]
  }

  /** The row is FAILED with no attempt left: nothing can start it, and no enqueue with its limit reopens it. */
  lemma LateFailureStrandsJob(k: JobKey, staleAfter: int, start: int, again: int, late: int)
    requires 0 <= staleAfter && start + staleAfter < again <= late
    ensures var events := LateFailure(k, staleAfter, start, again, late);
            LegalRun(events) && LeasedRun(events) && k in After(events, 5) &&
            After(events, 5)[k].status == Failed && After(events, 5)[k].Exhausted()
  {
    hide Apply;
    var events := LateFailure(k, staleAfter, start, again, late);
    var queued := Job(Queued, 0, 2, 100, start, start, None, false, None);
    assert After(events, 0) == map[];
    RowOfApply(After(events, 0), events[0], k);
    assert Lookup(After(events, 1), k) == Some(queued);
    RowOfApply(After(events, 1), events[1], k);
    assert Lookup(After(events, 2), k) == Some(Started(queued, "first", start));
    RowOfApply(After(events, 2), events[2], k);
    assert Lookup(After(events, 3), k) == Some(queued.(attempts := 1));
    RowOfApply(After(events, 3), events[3], k);
    RowOfApply(After(events, 4), events[4], k);
    assert ReadAt(events, 3, k, Seen(1, 2));
    forall i | 0 <= i < |events| ensures LegalAt(events, i) && LeasedAt(events, i) {
    }
  }

  /** A re-enqueue raises the limit after the lease holder of the last attempt has read it. */
  function RaisedTooLate(k: JobKey, start: int, late: int): seq<Event> {
    [Enqueue(k, 100, 1, start), Claim([k], {}, "worker", start), Enqueue(k, 100, 2, late),
     Fail(k, Failure(false, false, false, false), Seen(1, 1), late)]
  }

  /** The row is DEAD with an attempt left, and not for a permanent error. */
  lemma RaisedTooLateIsDead(k: JobKey, start: int, late: int)
    requires start <= late
    ensures var events := RaisedTooLate(k, start, late);
            LegalRun(events) && LeasedRun(events) && k in After(events, 4) &&
            After(events, 4)[k].Reopenable() && !After(events, 4)[k].Exhausted()
  {
    hide Apply;
    var events := RaisedTooLate(k, start, late);
    var queued := Job(Queued, 0, 1, 100, start, start, None, false, None);
    assert After(events, 0) == map[];
    RowOfApply(After(events, 0), events[0], k);
    assert Lookup(After(events, 1), k) == Some(queued);
    RowOfApply(After(events, 1), events[1], k);
    assert Lookup(After(events, 2), k) == Some(Started(queued, "worker", start));
    RowOfApply(After(events, 2), events[2], k);
    RowOfApply(After(events, 3), events[3], k);
    assert ReadAt(events, 2, k, Seen(1, 1));
    forall i | 0 <= i < |events| ensures LegalAt(events, i) && LeasedAt(events, i) {
    }
  }

  /** The attempt limit a re-enqueue may set without harm, exactly. */
  lemma EnqueueIsSafeIff(j: Job, priority: int, maxAttempts: int, now: int)
    requires SafeRow(j)
    ensures SafeRow(Enqueued(Some(j), priority, maxAttempts, now)) <==>
            if j.Reopenable() then 0 <= maxAttempts
            else if j.status.Failed? then j.attempts < maxAttempts
            else j.attempts <= maxAttempts
  {
    var updated := Enqueued(Some(j), priority, maxAttempts, now);
    assert j.PermanentlyDead() || j.Reopenable() || !j.status.Dead?;
  }

  // The attempt ledger, for runs of lease holders

  ghost predicate Reopens(t: Table, e: Event, k: JobKey) {
    e.Enqueue? && e.key == k && (k !in t || t[k].Reopenable())
  }

  ghost predicate Claims(t: Table, e: Event, k: JobKey) {
    k in t && ((e.Claim? && k in e.keys) || (e.Start? && e.key == k && t[k].Startable(e.now)))
  }

  ghost predicate Refunds(e: Event, k: JobKey) {
    e.Defer? && e.key == k && e.refund
  }

  /** How often the job was claimed since it was last opened. */
  ghost function ClaimCount(events: seq<Event>, k: JobKey, n: nat): nat
    requires n <= |events|
  {
    if n == 0 || Reopens(After(events, n - 1), events[n - 1], k) then 0
    else ClaimCount(events, k, n - 1) + (if Claims(After(events, n - 1), events[n - 1], k) then 1 else 0)
  }

  /** How often an attempt of the job was refunded since it was last opened. */
  ghost function RefundCount(events: seq<Event>, k: JobKey, n: nat): nat
    requires n <= |events|
  {
    if n == 0 || Reopens(After(events, n - 1), events[n - 1], k) then 0
    else RefundCount(events, k, n - 1) + (if Refunds(events[n - 1], k) then 1 else 0)
  }

  lemma LedgerStep(t: Table, e: Event, k: JobKey)
    requires Legal(t, e) && NeverLowers(t, e) && Leased(t, e) && k in Apply(t, e)
    requires k in t ==> BoundRow(t[k]) && (t[k].status.Running? ==> t[k].attempts >= 1)
    ensures Reopens(t, e, k) ==> Apply(t, e)[k].attempts == 0
    ensures !Reopens(t, e, k) ==>
              k in t && Apply(t, e)[k].attempts ==
                        t[k].attempts + (if Claims(t, e, k) then 1 else 0) - (if Refunds(e, k) then 1 else 0)
    ensures Apply(t, e)[k].status.Running? ==> Apply(t, e)[k].attempts >= 1
  {
    hide RetryDelay;
    RowOfApply(t, e, k);
  }

  /** attempt_count is exactly the claims less the refunds since the job was last opened. */
  lemma {:induction false} AttemptsAreClaimsLessRefunds(events: seq<Event>, k: JobKey, n: nat)
    requires LegalRun(events) && LeasedRun(events) && n <= |events| && k in After(events, n)
    ensures After(events, n)[k].attempts == ClaimCount(events, k, n) - RefundCount(events, k, n)
    ensures After(events, n)[k].status.Running? ==> After(events, n)[k].attempts >= 1
  {
    assert LegalAt(events, n - 1) && LeasedAt(events, n - 1);
    var t, e := After(events, n - 1), events[n - 1];
    EveryRunIsBound(events, n - 1);
    if k in t {
      AttemptsAreClaimsLessRefunds(events, k, n - 1);
    }
    hide Legal, NeverLowers, Leased, Apply;
    LedgerStep(t, e, k);
  }

  // When a job may run again

  /** Minutes before the next attempt: two for the first one or none, twice as many for each further one, up to ten. */
  function WaitMinutes(attempts: int): nat { Pow2(Min(Max(attempts, 1), 10)) }

  /**
   * The job after a failure. If the failure blocks it, it runs again as soon as its provider is reactivated; otherwise
   * it runs again if the failure is not terminal, when the minutes for the attempts that were read are over.
   */
  lemma FailedRunsAgainIff(
      t: Table, k: JobKey, f: Failure, seen: Seen, now: int, reactivated: set<string>, at: int)
    requires k in t && !(f.blockedConfig && f.blockedUpstream)
    ensures var e := Event.Fail(k, f, seen, now);
            k in Apply(t, e) &&
            (Claimable(k, Apply(t, e)[k], reactivated, at) <==>
             t[k].attempts < t[k].maxAttempts &&
             if f.blockedConfig || f.blockedUpstream then k.provider in reactivated && now <= at
             else !f.permanent && seen.attempts < seen.maxAttempts && now + 60 * WaitMinutes(seen.attempts) <= at)
  {
    RowOfApply(t, Event.Fail(k, f, seen, now), k);
    WaitIsDelay(seen.attempts);
  }

  lemma WaitIsDelay(attempts: int)
    ensures WaitMinutes(attempts) == RetryDelay(attempts)
  {
    PowBelow(Min(Max(attempts, 1), 10));
  }

  /** The job after it was deferred: it runs again after the given seconds, or when it could have run before. */
  lemma DeferredRunsAgainIff(
      t: Table, k: JobKey, refund: bool, retryAfter: Option<int>, now: int, reactivated: set<string>, at: int)
    requires k in t
    ensures var e := Event.Defer(k, refund, retryAfter, now);
            k in Apply(t, e) &&
            (Claimable(k, Apply(t, e)[k], reactivated, at) <==>
             (if refund then Max(t[k].attempts - 1, 0) else t[k].attempts) < t[k].maxAttempts &&
             (match retryAfter
              case None => t[k].availableAt <= at
              case Some(seconds) => now <= at && now + seconds <= at))
  {
    RowOfApply(t, Event.Defer(k, refund, retryAfter, now), k);
  }

  /** Starting one job is claiming without reactivating a provider: both take the same rows at the same times. */
  lemma StartsIffClaimable(k: JobKey, j: Job, now: int)
    ensures j.Startable(now) <==> Claimable(k, j, {}, now)
  {
  }

  /** Reactivating providers adds their blocked jobs, and nothing else. */
  lemma ReactivationAdds(k: JobKey, j: Job, reactivated: set<string>, now: int)
    ensures Claimable(k, j, reactivated, now) <==>
            Claimable(k, j, {}, now) ||
            (k.provider in reactivated && j.status in {BlockedConfig, BlockedUpstream} &&
             Claimable(k, j.(status := Queued), {}, now))
  {
  }

  /**
   * A new job runs at once; so does one that is reopened, which starts over; any other row keeps
   * its time and count.
   */
  lemma EnqueuedRunsAgainIff(
      t: Table, k: JobKey, priority: int, maxAttempts: int, now: int, reactivated: set<string>, at: int)
    ensures var e := Event.Enqueue(k, priority, maxAttempts, now);
            k in Apply(t, e) && Apply(t, e)[k].priority == priority && Apply(t, e)[k].maxAttempts == maxAttempts &&
            (Claimable(k, Apply(t, e)[k], reactivated, at) <==>
             if k !in t || (t[k].status == Dead && !t[k].permanent) then 0 < maxAttempts && now <= at
             else Claimable(k, t[k].(maxAttempts := maxAttempts), reactivated, at))
  {
    RowOfApply(t, Event.Enqueue(k, priority, maxAttempts, now), k);
  }

  /** Reopening a job leaves what enqueueing it for the first time would, but for the time of its creation. */
  lemma ReopenedIsNew(t: Table, k: JobKey, priority: int, maxAttempts: int, now: int)
    requires k in t && BoundRow(t[k]) && t[k].status == Dead && !t[k].permanent
    ensures var e := Event.Enqueue(k, priority, maxAttempts, now);
            k in Apply(t, e) && k in Apply(map[], e) &&
            Apply(t, e)[k].(createdAt := now) == Apply(map[], e)[k]
  {
    RowOfApply(t, Event.Enqueue(k, priority, maxAttempts, now), k);
    RowOfApply(map[], Event.Enqueue(k, priority, maxAttempts, now), k);
  }

  /**
   * A running job can be claimed again after a recovery exactly when its lock was older, and its
   * attempts are not used up.
   */
  lemma RecoveredRunsAgainIff(t: Table, k: JobKey, staleAfter: int, now: int, reactivated: set<string>, at: int)
    requires k in t && BoundRow(t[k]) && t[k].status == Running
    ensures var e := Event.RecoverStale(staleAfter, now);
            k in Apply(t, e) &&
            (Claimable(k, Apply(t, e)[k], reactivated, at) <==>
             t[k].lock.value.at + staleAfter < now && t[k].availableAt <= at && t[k].attempts < t[k].maxAttempts)
  {
    RowOfApply(t, Event.RecoverStale(staleAfter, now), k);
  }

  /** A recovery leaves every job alone that is not running. */
  lemma RecoveryTouchesRunning(t: Table, k: JobKey, staleAfter: int, now: int)
    requires k in t && t[k].status != Running
    ensures k in Apply(t, Event.RecoverStale(staleAfter, now)) &&
            Apply(t, Event.RecoverStale(staleAfter, now))[k] == t[k]
  {
    RowOfApply(t, Event.RecoverStale(staleAfter, now), k);
  }

  /** A completed job never runs again by itself. */
  lemma CompletedNeverRuns(t: Table, k: JobKey, now: int, reactivated: set<string>, at: int)
    requires k in t
    ensures var e := Event.Complete(k, now);
            k in Apply(t, e) && !Claimable(k, Apply(t, e)[k], reactivated, at) && Apply(t, e)[k].finishedAt == Some(now)
  {
    RowOfApply(t, Event.Complete(k, now), k);
  }

  /**
   * Blocking a provider takes its waiting jobs, and those that wait for configuration, out of the way for good: they
   * are claimed only when the provider is reactivated. Every other job stays as it is.
   */
  lemma BlockedRunsAgainIff(t: Table, k: JobKey, provider: string, now: int, reactivated: set<string>, at: int)
    requires k in t
    ensures var e := Event.BlockStatic(provider, now);
            k in Apply(t, e) &&
            if k.provider == provider && t[k].status in {Queued, Failed, BlockedConfig} then
              Apply(t, e)[k] ==
                t[k].(status := BlockedUpstream, lock := None, permanent := false, finishedAt := Some(now)) &&
              (Claimable(k, Apply(t, e)[k], reactivated, at) <==>
               provider in reactivated && t[k].availableAt <= at && t[k].attempts < t[k].maxAttempts)
            else Apply(t, e)[k] == t[k]
  {
    RowOfApply(t, Event.BlockStatic(provider, now), k);
  }

  /** Where a failure leaves the job. */
  lemma FailedBecomes(t: Table, k: JobKey, f: Failure, seen: Seen, now: int)
    requires k in t && !(f.blockedConfig && f.blockedUpstream)
    ensures var e := Event.Fail(k, f, seen, now);
            k in Apply(t, e) &&
            (Apply(t, e)[k].status == BlockedConfig <==> f.blockedConfig) &&
            (Apply(t, e)[k].status == BlockedUpstream <==> f.blockedUpstream) &&
            (Apply(t, e)[k].status == Dead <==>
             !f.blockedConfig && !f.blockedUpstream && (f.permanent || seen.attempts >= seen.maxAttempts)) &&
            (Apply(t, e)[k].status == Failed <==>
             !f.blockedConfig && !f.blockedUpstream && !f.permanent && seen.attempts < seen.maxAttempts) &&
            (Apply(t, e)[k].finishedAt == Some(now) <==> f.permanent || seen.attempts >= seen.maxAttempts) &&
            (Apply(t, e)[k].permanent <==> f.permanent || f.marked)
  {
    hide RetryDelay;
    RowOfApply(t, Event.Fail(k, f, seen, now), k);
  }

  /** A finished job says when; one that failed for now does not; one that runs or is done bears no permanent mark. */
  ghost predicate DatedRow(j: Job) {
    (j.status == Succeeded || j.status == Dead ==> j.finishedAt.Some?) &&
    (j.status == Failed ==> j.finishedAt.None?) &&
    (j.status == Running || j.status == Succeeded ==> !j.permanent)
  }

  lemma StepKeepsDated(t: Table, e: Event, k: JobKey)
    requires Legal(t, e) && (k in t ==> DatedRow(t[k]))
    ensures k in Apply(t, e) ==> DatedRow(Apply(t, e)[k])
  {
    hide RetryDelay;
    RowOfApply(t, e, k);
  }

  /** Over every run, with or without leases. */
  lemma {:induction false} EveryRunIsDated(events: seq<Event>, n: nat, k: JobKey)
    requires LegalRun(events) && n <= |events|
    ensures k in After(events, n) ==> DatedRow(After(events, n)[k])
  {
    if n > 0 {
      EveryRunIsDated(events, n - 1, k);
      assert LegalAt(events, n - 1);
      hide Legal, NeverLowers, Apply, DatedRow;
      StepKeepsDated(After(events, n - 1), events[n - 1], k);
    }
  }

  /** The event says anew when the job may run. */
  ghost predicate SetsTime(t: Table, e: Event, k: JobKey) {
    (e.Fail? && e.key == k) || (e.Defer? && e.key == k && e.retryAfter.Some?) || Reopens(t, e, k)
  }

  /** The earliest moment that such an event allows. */
  function TimeSet(e: Event): int
    requires e.Fail? || (e.Defer? && e.retryAfter.Some?) || e.Enqueue?
  {
    match e
    case Fail(_, f, seen, now) =>
      if f.blockedConfig || f.blockedUpstream then now else now + 60 * WaitMinutes(seen.attempts)
    case Defer(_, _, retryAfter, now) => now + Max(0, retryAfter.value)
    case Enqueue(_, _, _, now) => now
  }

  lemma TimeStep(t: Table, e: Event, k: JobKey)
    requires k in t || SetsTime(t, e, k)
    requires e.Fail? && e.key == k ==> k in t
    ensures SetsTime(t, e, k) && k in Apply(t, e) ==> Apply(t, e)[k].availableAt == TimeSet(e)
    ensures !SetsTime(t, e, k) ==> k in Apply(t, e) && Apply(t, e)[k].availableAt == t[k].availableAt
  {
    RowOfApply(t, e, k);
    if e.Fail? {
      WaitIsDelay(e.seen.attempts);
    }
    hide RetryDelay, WaitMinutes;
  }

  ghost predicate SetsTimeAt(events: seq<Event>, m: nat, k: JobKey)
    requires m < |events|
  {
    SetsTime(After(events, m), events[m], k)
  }

  lemma {:induction false} TimeStands(events: seq<Event>, i: nat, j: nat, k: JobKey)
    requires LegalRun(events) && i < j <= |events| && SetsTimeAt(events, i, k) && k in After(events, i + 1)
    requires forall m | i < m < j :: !SetsTimeAt(events, m, k)
    ensures k in After(events, j) && After(events, j)[k].availableAt == TimeSet(events[i])
  {
    hide Legal, NeverLowers, Apply, SetsTime, TimeSet, ReadBefore;
    if j == i + 1 {
      FailedRowsExist(events, i, k);
      TimeStep(After(events, i), events[i], k);
    } else {
      TimeStands(events, i, j - 1, k);
      assert !SetsTimeAt(events, j - 1, k);
      FailedRowsExist(events, j - 1, k);
      TimeStep(After(events, j - 1), events[j - 1], k);
    }
  }

  lemma FailedRowsExist(events: seq<Event>, i: nat, k: JobKey)
    requires LegalRun(events) && i < |events|
    ensures events[i].Fail? && events[i].key == k ==> k in After(events, i)
  {
    hide Legal, NeverLowers, Apply;
    assert LegalAt(events, i);
    if events[i].Fail? && events[i].key == k {
      var m :| 0 <= m <= i && ReadAt(events, m, k, events[i].seen);
      RowsStay(events, m, i, k);
    }
  }

  lemma {:induction false} RowsStay(events: seq<Event>, m: nat, i: nat, k: JobKey)
    requires m <= i <= |events| && k in After(events, m)
    ensures k in After(events, i)
  {
    hide RowAfter;
    if m < i {
      RowsStay(events, m, i - 1, k);
    }
  }

  /**
   * Over any run no attempt at a job begins before the time that the last failure, delay or opening of
   * the job has set.
   */
  lemma ClaimsWait(events: seq<Event>, i: nat, j: nat, k: JobKey)
    requires LegalRun(events) && i < j < |events| && SetsTimeAt(events, i, k) && k in After(events, i + 1)
    requires forall m | i < m < j :: !SetsTimeAt(events, m, k)
    requires Claims(After(events, j), events[j], k)
    ensures TimeSet(events[i]) <= events[j].now
  {
    TimeStands(events, i, j, k);
    assert LegalAt(events, j);
    hide After, TimeSet, SetsTimeAt, ReadBefore;
  }

  // Terminal states

  ghost predicate Settled(t: Table, k: JobKey) {
    k in t && (t[k].status.Succeeded? || t[k].PermanentlyDead())
  }

  /** The event defers the job, or fails it in a way that is not terminal for good. */
  predicate Unsettles(t: Table, e: Event, k: JobKey) {
    k in t &&
    ((e.Defer? && e.key == k) ||
     (e.Fail? && e.key == k &&
      (e.failure.blockedConfig || e.failure.blockedUpstream ||
       !(e.failure.permanent || (e.failure.marked && e.seen.attempts >= e.seen.maxAttempts)))))
  }

  /** The event completes a dead job or fails a completed one. */
  predicate Overturns(t: Table, e: Event, k: JobKey) {
    k in t && ((e.Complete? && e.key == k && t[k].status.Dead?) || (e.Fail? && e.key == k && t[k].status.Succeeded?))
  }

  /** Whoever sends it: exactly which events take a settled job out of its state, and which change the state. */
  lemma SettledStaysIff(t: Table, e: Event, k: JobKey)
    requires Legal(t, e) && Settled(t, k)
    ensures Settled(Apply(t, e), k) <==> !Unsettles(t, e, k)
    ensures Settled(Apply(t, e), k) ==> (Apply(t, e)[k].status == t[k].status <==> !Overturns(t, e, k))
  {
    hide RetryDelay;
    RowOfApply(t, e, k);
  }

  ghost predicate UnsettledAt(events: seq<Event>, k: JobKey, m: nat)
    requires m < |events|
  {
    Unsettles(After(events, m), events[m], k)
  }

  ghost predicate SettledAt(events: seq<Event>, k: JobKey, m: nat)
    requires m <= |events|
  {
    Settled(After(events, m), k)
  }

  /** Over any run, leases or not, a job stays settled throughout if and only if no event unsettles it. */
  lemma {:induction false} SettledThroughoutIff(events: seq<Event>, k: JobKey, i: nat, n: nat)
    requires LegalRun(events) && i <= n <= |events| && SettledAt(events, k, i)
    ensures (forall m | i <= m <= n :: SettledAt(events, k, m)) <==>
            (forall m | i <= m < n :: !UnsettledAt(events, k, m))
  {
    if i < n {
      SettledThroughoutIff(events, k, i, n - 1);
      if SettledAt(events, k, n - 1) {
        SettledNextIff(events, k, n - 1);
      }
      hide *;
    }
  }

  lemma SettledNextIff(events: seq<Event>, k: JobKey, m: nat)
    requires LegalRun(events) && m < |events| && SettledAt(events, k, m)
    ensures SettledAt(events, k, m + 1) <==> !UnsettledAt(events, k, m)
  {
    hide Legal, NeverLowers, Apply, Settled, Unsettles;
    assert LegalAt(events, m);
    SettledStaysIff(After(events, m), events[m], k);
  }

  /** The events that finish or defer the job come from a holder of its lease. */
  ghost predicate LeasedFor(events: seq<Event>, k: JobKey, i: nat, n: nat)
    requires i <= n <= |events|
  {
    forall m | i <= m < n && (events[m].Complete? || events[m].Fail? || events[m].Defer?) && events[m].key == k ::
      LeasedAt(events, m)
  }

  /** SUCCEEDED and permanent DEAD are never left while only lease holders finish that job. */
  lemma {:induction false} SettledIsFinal(events: seq<Event>, k: JobKey, i: nat, n: nat)
    requires LegalRun(events) && i <= n <= |events| && LeasedFor(events, k, i, n) && Settled(After(events, i), k)
    ensures Settled(After(events, n), k) && After(events, n)[k].status == After(events, i)[k].status
  {
    if i < n {
      SettledIsFinal(events, k, i, n - 1);
      assert LegalAt(events, n - 1);
      SettledStaysIff(After(events, n - 1), events[n - 1], k);
      hide Apply, Legal, NeverLowers;
    }
  }

  /**
   * What the scheduled ingest does first: it enqueues the job and leaves it alone if it has succeeded. Otherwise it
   * tries to start it, if the provider is inline and within its budget, and defers it, if not.
   */
  function Scheduled(
    t: Table, k: JobKey, priority: int, maxAttempts: int, inlineWithinBudget: bool, worker: string, now: int): Table
  {
    var enqueued := Apply(t, Event.Enqueue(k, priority, maxAttempts, now));
    if enqueued[k].status.Succeeded? then enqueued
    else if inlineWithinBudget then Apply(enqueued, Event.Start(k, worker, now))
    else Apply(enqueued, Event.Defer(k, false, None, now))
  }

  /**
   * A settled job stays settled unless it is permanently dead and its provider is not inline or its budget is used
   * up; then it goes back into the queue.
   */
  lemma ScheduledIngestRevivesDead(
      t: Table, k: JobKey, priority: int, maxAttempts: int, inlineWithinBudget: bool, worker: string, now: int)
    requires Settled(t, k)
    ensures var after := Scheduled(t, k, priority, maxAttempts, inlineWithinBudget, worker, now);
            k in after && (Settled(after, k) <==> t[k].status.Succeeded? || inlineWithinBudget) &&
            after[k].status == (if Settled(after, k) then t[k].status else Queued) && after[k].attempts == t[k].attempts
  {
    var enqueued := Apply(t, Event.Enqueue(k, priority, maxAttempts, now));
    RowOfApply(t, Event.Enqueue(k, priority, maxAttempts, now), k);
    RowOfApply(enqueued, Event.Start(k, worker, now), k);
    RowOfApply(enqueued, Event.Defer(k, false, None, now), k);
  }

  /**
   * A worker whose lease went stale, and whose provider call then finds the circuit open, when the
   * next worker is done.
   */
  function LateDefer(k: JobKey, maxAttempts: int, staleAfter: int, start: int, again: int, late: int): seq<Event> {
    [Enqueue(k, 100, maxAttempts, start), Claim([k], {}, "first", start), RecoverStale(staleAfter, again),
     Claim([k], {}, "second", again), Complete(k, again), Defer(k, true, Some(0), late)]
  }

  /** A legal run in which a completed job goes back into the queue, with attempts left to run it again. */
  lemma LateDeferRevivesSuccess(k: JobKey, maxAttempts: int, staleAfter: int, start: int, again: int, late: int)
    requires 0 <= staleAfter && start + staleAfter < again <= late && 2 <= maxAttempts
    ensures var events := LateDefer(k, maxAttempts, staleAfter, start, again, late);
            LegalRun(events) &&
            k in After(events, 5) && After(events, 5)[k].status == Succeeded && !LeasedAt(events, 5) &&
            k in After(events, 6) && After(events, 6)[k].Startable(late)
  {
    hide Apply;
    var events := LateDefer(k, maxAttempts, staleAfter, start, again, late);
    LateDeferTrace(k, maxAttempts, staleAfter, start, again, late);
    forall i | 0 <= i < |events| ensures LegalAt(events, i) {
    }
  }

  lemma LateDeferTrace(k: JobKey, maxAttempts: int, staleAfter: int, start: int, again: int, late: int)
    requires 0 <= staleAfter && start + staleAfter < again <= late && 2 <= maxAttempts
    ensures var events := LateDefer(k, maxAttempts, staleAfter, start, again, late);
            var queued := Job(Queued, 0, maxAttempts, 100, start, start, None, false, None);
            After(events, 0) == map[] && Lookup(After(events, 1), k) == Some(queued) &&
            Lookup(After(events, 2), k) == Some(Started(queued, "first", start)) &&
            Lookup(After(events, 3), k) == Some(queued.(attempts := 1)) &&
            Lookup(After(events, 4), k) == Some(Started(queued.(attempts := 1), "second", again)) &&
            Lookup(After(events, 5), k) == Some(Completed(Started(queued.(attempts := 1), "second", again), again)) &&
            Lookup(After(events, 6), k) == Some(queued.(attempts := 1, availableAt := late, finishedAt := Some(again)))
  {
    hide Apply;
    var events := LateDefer(k, maxAttempts, staleAfter, start, again, late);
    assert After(events, 0) == map[];
    RowOfApply(After(events, 0), events[0], k);
    RowOfApply(After(events, 1), events[1], k);
    RowOfApply(After(events, 2), events[2], k);
    RowOfApply(After(events, 3), events[3], k);
    RowOfApply(After(events, 4), events[4], k);
    RowOfApply(After(events, 5), events[5], k);
  }

  // Jobs that are waiting but can never run

  ghost predicate Stranded(t: Table, k: JobKey) {
    k in t && t[k].status.Queued? && t[k].Exhausted()
  }

  /** The ways in which a job becomes QUEUED with no attempt left. */
  ghost predicate Strands(t: Table, e: Event, k: JobKey) {
    (k in t && t[k].Exhausted() && e.RecoverStale? && Stale(t[k], e.staleAfter, e.now)) ||
    (k in t && t[k].Exhausted() && e.Defer? && e.key == k && !e.refund) ||
    (Reopens(t, e, k) && e.maxAttempts == 0)
  }

  lemma StrandStep(t: Table, e: Event, k: JobKey)
    requires Legal(t, e) && NeverLowers(t, e) && Leased(t, e) && !Stranded(t, k)
    requires k in t ==> BoundRow(t[k]) && (t[k].status.Running? ==> t[k].attempts >= 1)
    ensures Stranded(Apply(t, e), k) <==> Strands(t, e, k)
  {
    hide RetryDelay;
    RowOfApply(t, e, k);
  }

  /**
   * Exactly how a job becomes QUEUED with no attempt left: its last lease goes stale or is
   * deferred without a refund, or it is opened with no attempts at all.
   */
  lemma StrandedExactlyBy(events: seq<Event>, i: nat, k: JobKey)
    requires LegalRun(events) && LeasedRun(events) && i < |events| && !Stranded(After(events, i), k)
    ensures Stranded(After(events, i + 1), k) <==> Strands(After(events, i), events[i], k)
  {
    hide Legal, NeverLowers, Leased, Apply, Strands;
    assert LegalAt(events, i) && LeasedAt(events, i);
    EveryRunIsBound(events, i);
    if k in After(events, i) {
      AttemptsAreClaimsLessRefunds(events, k, i);
    }
    StrandStep(After(events, i), events[i], k);
  }

  /** The states from which nothing but a re-enqueue with more attempts leads back to work. */
  ghost predicate Stuck(t: Table, k: JobKey) {
    k in t && t[k].Exhausted() &&
    (t[k].status.Queued? || t[k].status.Failed? || t[k].status.BlockedConfig? || t[k].status.BlockedUpstream?)
  }

  lemma StuckStep(t: Table, e: Event, k: JobKey)
    requires Legal(t, e) && NeverLowers(t, e) && Leased(t, e) && Stuck(t, k)
    ensures Stuck(Apply(t, e), k) <==> !(e.Enqueue? && e.key == k && t[k].attempts < e.maxAttempts)
    ensures Apply(t, e)[k].attempts == t[k].attempts && !Apply(t, e)[k].status.Running?
  {
    hide RetryDelay;
    RowOfApply(t, e, k);
  }

  /** A stuck job is never claimed again, whatever else happens, until its attempt limit is raised. */
  lemma {:induction false} StuckStaysStuck(events: seq<Event>, k: JobKey, i: nat, n: nat)
    requires LegalRun(events) && LeasedRun(events) && i <= n <= |events| && Stuck(After(events, i), k)
    requires forall m | i <= m < n && events[m].Enqueue? && events[m].key == k ::
               events[m].maxAttempts <= After(events, i)[k].attempts
    ensures Stuck(After(events, n), k) && After(events, n)[k].attempts == After(events, i)[k].attempts
  {
    if i < n {
      StuckStaysStuck(events, k, i, n - 1);
      assert LegalAt(events, n - 1) && LeasedAt(events, n - 1);
      StuckStep(After(events, n - 1), events[n - 1], k);
    }
  }

  // The table and its operations

  function OnFailedFirst(j: Job): int { if j.status.Failed? then 0 else 1 }

  /** The order in which jobs are claimed: priority, then failures, then age. */
  predicate Before(a: Job, b: Job) {
    a.priority < b.priority || (a.priority == b.priority &&
    (OnFailedFirst(a) < OnFailedFirst(b) || (OnFailedFirst(a) == OnFailedFirst(b) &&
    (a.availableAt < b.availableAt || (a.availableAt == b.availableAt && a.createdAt < b.createdAt)))))
  }

  lemma {:induction false} FirstInOrder(t: Table, keys: set<JobKey>) returns (first: JobKey)
    requires keys != {} && keys <= t.Keys
    ensures first in keys && forall k | k in keys :: !Before(t[k], t[first])
  {
    var x :| x in keys;
    if keys == {x} {
      first := x;
    } else {
      var y := FirstInOrder(t, keys - {x});
      first := if Before(t[y], t[x]) then y else x;
    }
  }

  /**
   * The order reads: smaller priority first; of equal priority, failed jobs first; of these, the
   * earlier due; then the older.
   */
  lemma InClaimOrderIff(a: Job, b: Job)
    ensures !Before(b, a) <==>
            a.priority <= b.priority &&
            (a.priority == b.priority ==>
               (b.status == Failed ==> a.status == Failed) &&
               ((a.status == Failed <==> b.status == Failed) ==>
                  a.availableAt <= b.availableAt && (a.availableAt == b.availableAt ==> a.createdAt <= b.createdAt)))
  {
  }

  datatype ClaimedJob = ClaimedJob(key: JobKey, attempts: int, maxAttempts: int)

  /** The rows a claim may take: claimable, of a wanted provider, and not locked by another session. */
  function Wanted(t: Table, providers: Option<set<string>>, reactivated: set<string>, skipped: set<JobKey>, now: int)
    : (wanted: set<JobKey>)
    ensures wanted <= t.Keys && forall k | k in wanted :: Claimable(k, t[k], reactivated, now)
  {
    set k | k in t && k !in skipped && Claimable(k, t[k], reactivated, now) &&
            (providers.Some? ==> k.provider in providers.value)
  }

  /** The first `limit` wanted rows in claim order, or all of them when there are fewer. */
  ghost predicate Selects(t: Table, limit: int, wanted: set<JobKey>, keys: seq<JobKey>)
    requires wanted <= t.Keys
  {
    NoRepeats(keys) && (forall k | k in keys :: k in wanted) &&
    |keys| == Max(0, Min(limit, |wanted|)) &&
    (forall i, j | 0 <= i < j < |keys| :: !Before(t[keys[j]], t[keys[i]])) &&
    (forall c, k | c in keys && k in wanted && k !in keys :: !Before(t[k], t[c]))
  }

  method SelectJobs(t: Table, limit: int, providers: Option<set<string>>, reactivated: set<string>,
                    skipped: set<JobKey>, now: int) returns (keys: seq<JobKey>)
    ensures Selects(t, limit, Wanted(t, providers, reactivated, skipped, now), keys)
    ensures NoRepeats(keys) && forall k | k in keys :: k in t && Claimable(k, t[k], reactivated, now)
  {
    hide Before, Claimable, Wanted;
    keys := [];
    var waiting := Wanted(t, providers, reactivated, skipped, now);
    ghost var wanted := waiting;
    while waiting != {} && |keys| < limit
      invariant waiting <= wanted && |keys| + |waiting| == |wanted| && |keys| <= Max(0, limit)
      invariant NoRepeats(keys)
      invariant forall k :: k in wanted <==> k in waiting || k in keys
      invariant forall k | k in keys :: k !in waiting
      invariant forall i | 0 <= i < |keys| :: keys[i] in keys && keys[i] in t
      invariant forall i, j | 0 <= i < j < |keys| :: !Before(t[keys[j]], t[keys[i]])
      invariant forall k, c | k in waiting && c in keys :: !Before(t[k], t[c])
      decreases waiting
    {
      ghost var first := FirstInOrder(t, waiting);
      var next :| next in waiting && forall k | k in waiting :: !Before(t[k], t[next]);
      keys := keys + [next];
      waiting := waiting - {next};
    }
  }

  /** A selection that stays below the limit has left nothing out. */
  lemma SelectsAll(t: Table, limit: int, providers: Option<set<string>>, reactivated: set<string>, skipped: set<JobKey>,
                   now: int, keys: seq<JobKey>)
    requires Selects(t, limit, Wanted(t, providers, reactivated, skipped, now), keys)
    ensures |keys| <= Max(0, limit)
    ensures forall k | k in keys :: k !in skipped && (providers.Some? ==> k.provider in providers.value)
    ensures |keys| < limit ==>
              forall k | k in t && k !in skipped && (providers.Some? ==> k.provider in providers.value) &&
                         Claimable(k, t[k], reactivated, now) :: k in keys
  {
    hide Before, Claimable;
    var wanted := Wanted(t, providers, reactivated, skipped, now);
    if |keys| < limit {
      KeysAreAll(keys, wanted);
    }
  }

  lemma {:induction false} KeysAreAll(keys: seq<JobKey>, wanted: set<JobKey>)
    requires NoRepeats(keys) && (forall k | k in keys :: k in wanted) && |keys| == |wanted|
    ensures forall k | k in wanted :: k in keys
  {
    if keys != [] {
      var n := |keys| - 1;
      assert keys[n] !in keys[..n];
      KeysAreAll(keys[..n], wanted - {keys[n]});
      assert keys == keys[..n] + [keys[n]];
    }
  }

  class JobTable {
    var rows: Table

    constructor ()
      ensures rows == map[]
    {
      rows := map[];
    }

    method Enqueue(key: JobKey, priority: int, maxAttempts: int, now: int) returns (row: Job)
      modifies this
      ensures rows == Apply(old(rows), Event.Enqueue(key, priority, maxAttempts, now))
      ensures row == rows[key] && row.priority == priority && row.maxAttempts == maxAttempts
      ensures row.status == if key !in old(rows) || old(rows)[key].Reopenable() then Queued else old(rows)[key].status
    {
      row := Enqueued(Lookup(rows, key), priority, maxAttempts, now);
      rows := rows[key := row];
      assert rows == Apply(old(rows), Event.Enqueue(key, priority, maxAttempts, now));
    }

    method Start(key: JobKey, worker: string, now: int) returns (started: bool)
      modifies this
      ensures rows == Apply(old(rows), Event.Start(key, worker, now))
      ensures started <==> Claims(old(rows), Event.Start(key, worker, now), key)
    {
      started := key in rows && rows[key].Startable(now);
      if started {
        rows := rows[key := Started(rows[key], worker, now)];
      }
      assert rows == Apply(old(rows), Event.Start(key, worker, now));
    }

    method Complete(key: JobKey, now: int)
      modifies this
      ensures rows == Apply(old(rows), Event.Complete(key, now))
    {
      if key in rows {
        rows := rows[key := Completed(rows[key], now)];
      }
      assert rows == Apply(old(rows), Event.Complete(key, now));
    }

    /** The first statement of a failure: the counters of the row. */
    method ReadCounters(key: JobKey) returns (seen: Option<Seen>)
      ensures seen == if key in rows then Some(CountersOf(rows[key])) else None
    {
      seen := if key in rows then Some(CountersOf(rows[key])) else None;
    }

    /** The second statement, which writes on the strength of counters read before. */
    method WriteFailure(key: JobKey, failure: Failure, seen: Seen, now: int)
      modifies this
      ensures rows == Apply(old(rows), Event.Fail(key, failure, seen, now))
    {
      if key in rows {
        rows := rows[key := FailedRow(rows[key], failure, seen, now)];
      }
      assert rows == Apply(old(rows), Event.Fail(key, failure, seen, now));
    }

    /**
     * A failure that nothing comes between. Reporting both blocks, or a job that does not exist, is an error that
     * changes nothing.
     */
    method Fail(key: JobKey, failure: Failure, now: int) returns (ok: bool)
      modifies this
      ensures ok <==> key in old(rows) && !(failure.blockedConfig && failure.blockedUpstream)
      ensures rows ==
              if ok then Apply(old(rows), Event.Fail(key, failure, CountersOf(old(rows)[key]), now)) else old(rows)
    {
      if failure.blockedConfig && failure.blockedUpstream {
        return false;
      }
      var seen := ReadCounters(key);
      if seen.None? {
        return false;
      }
      WriteFailure(key, failure, seen.value, now);
      ok := true;
    }

    method Defer(key: JobKey, refund: bool, retryAfter: Option<int>, now: int)
      modifies this
      ensures rows == Apply(old(rows), Event.Defer(key, refund, retryAfter, now))
    {
      if key in rows {
        rows := rows[key := Deferred(rows[key], refund, retryAfter, now)];
      }
      assert rows == Apply(old(rows), Event.Defer(key, refund, retryAfter, now));
    }

    method RecoverStale(staleAfter: int, now: int) returns (recovered: nat)
      modifies this
      ensures rows == Apply(old(rows), Event.RecoverStale(staleAfter, now))
      ensures recovered == |set k | k in old(rows) && Stale(old(rows)[k], staleAfter, now)|
    {
      recovered := |set k | k in rows && Stale(rows[k], staleAfter, now)|;
      rows := map k | k in rows :: if Stale(rows[k], staleAfter, now) then Recovered(rows[k]) else rows[k];
    }

    /** Claims up to `limit` runnable jobs of the wanted providers, one update per selected row. */
    method ClaimJobs(limit: int, providers: Option<set<string>>, reactivated: set<string>,
                     skipped: set<JobKey>, worker: string, now: int)
      returns (claimed: seq<ClaimedJob>, ghost keys: seq<JobKey>)
      modifies this
      ensures Selects(old(rows), limit, Wanted(old(rows), providers, reactivated, skipped, now), keys)
      ensures Legal(old(rows), Claim(keys, reactivated, worker, now))
      ensures forall k | k in keys :: k !in skipped && (providers.Some? ==> k.provider in providers.value)
      ensures |keys| <= Max(0, limit)
      ensures |keys| < limit ==>
                forall k | k in old(rows) && k !in skipped && (providers.Some? ==> k.provider in providers.value) &&
                           Claimable(k, old(rows)[k], reactivated, now) :: k in keys
      ensures rows == Apply(old(rows), Claim(keys, reactivated, worker, now))
      ensures |claimed| == |keys| && forall i | 0 <= i < |keys| ::
                keys[i] in rows && claimed[i] == ClaimedJob(keys[i], rows[keys[i]].attempts, rows[keys[i]].maxAttempts)
    {
      var selected := SelectJobs(rows, limit, providers, reactivated, skipped, now);
      keys := selected;
      SelectsAll(rows, limit, providers, reactivated, skipped, now, keys);
      hide Selects, Wanted, Claimable, NoRepeats;
      claimed := StartSelected(selected, reactivated, worker, now);
    }

    /** One update per selected row. */
    method StartSelected(selected: seq<JobKey>, ghost reactivated: set<string>, worker: string, now: int)
      returns (claimed: seq<ClaimedJob>)
      requires NoRepeats(selected) && forall k | k in selected :: k in rows
      modifies this
      ensures rows == Apply(old(rows), Claim(selected, reactivated, worker, now))
      ensures |claimed| == |selected| && forall i | 0 <= i < |selected| ::
                selected[i] in rows &&
                claimed[i] == ClaimedJob(selected[i], rows[selected[i]].attempts, rows[selected[i]].maxAttempts)
    {
      claimed := [];
      ghost var before := rows;
      for i := 0 to |selected|
        invariant rows == Apply(before, Claim(selected[..i], reactivated, worker, now))
        invariant |claimed| == i && forall j | 0 <= j < i ::
                    claimed[j] == ClaimedJob(selected[j], before[selected[j]].attempts + 1,
                        before[selected[j]].maxAttempts)
      {
        var k := selected[i];
        assert k !in selected[..i];
        assert selected[..i + 1] == selected[..i] + [k];
        RowOfApply(before, Claim(selected[..i], reactivated, worker, now), k);
        claimed := claimed + [ClaimedJob(k, rows[k].attempts + 1, rows[k].maxAttempts)];
        rows := rows[k := Started(rows[k], worker, now)];
        assert rows == Apply(before, Claim(selected[..i + 1], reactivated, worker, now));
      }
      assert selected[..|selected|] == selected;
    }

    /** Moves the waiting jobs of one provider out of the way of the sweep. */
    method BlockStatic(provider: string, now: int) returns (count: nat)
      modifies this
      ensures rows == Apply(old(rows), Event.BlockStatic(provider, now))
      ensures count == |Blockable(old(rows), provider)| && Blockable(rows, provider) == {}
    {
      count := |Blockable(rows, provider)|;
      rows := map k | k in rows ::
                if StaticallyBlockable(k, rows[k], provider) then BlockedRow(rows[k], now) else rows[k];
    }
  }
}
