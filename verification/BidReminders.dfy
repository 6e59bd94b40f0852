/** Bid reminders: leases fenced by the time of the claim, under every interleaving of workers. */
module BidReminders {
  import opened Common

  type Id = nat

  type Tenant = nat

  datatype Status = Pending | Delivering | Sent | Failed

  datatype Channel = InApp | Email | Webhook

  /** One row; times are in seconds. */
  datatype Reminder = Reminder(
    tenant: Tenant, channel: Channel, status: Status, remindAt: int, attempts: int,
    lastAttempt: Option<int>, nextRetry: Option<int>, sentAt: Option<int>)

  type Table = map<Id, Reminder>

  const MAX_ATTEMPTS := 8
  const LEASE_TIMEOUT := 15 * 60
  const RETRY_BASE := 60
  const RETRY_CAP := 6 * 60 * 60

  /** What the delivery of a claimed reminder comes to; without a configured endpoint it is final. */
  datatype Outcome = Delivered | NotConfigured | Rejected

  datatype Event =
    | Create(id: Id, tenant: Tenant, channel: Channel, remindAt: int)
    | Claim(tenant: Tenant, ids: set<Id>, now: int)
    | Finalize(id: Id, now: int, outcome: Outcome, seen: int)

  function RetryDelay(attempts: int): (delay: int)
    ensures RETRY_BASE <= delay <= RETRY_CAP
  {
    Min(RETRY_BASE * Pow2(Max(attempts - 1, 0)), RETRY_CAP)
  }

  /** The delay doubles from a minute on; over the attempts that leave another one, the cap is never met. */
  lemma {:induction false} RetryDelayDoubles(attempts: int)
    requires 1 <= attempts < MAX_ATTEMPTS
    ensures RetryDelay(attempts) == if attempts == 1 then 60 else 2 * RetryDelay(attempts - 1)
    ensures 60 <= RetryDelay(attempts) <= 3840
  {
    var p := Pow2(attempts - 1);
    assert Pow2(3) == 8;
    assert p <= 64 by { SmallPower(attempts - 1); }
    if attempts > 1 {
      assert p == 2 * Pow2(attempts - 2);
    }
  }

  lemma {:induction false} SmallPower(n: nat)
    requires n <= 6
    ensures Pow2(n) <= 64
    decreases 6 - n
  {
    if n < 6 {
      SmallPower(n + 1);
    } else {
      assert Pow2(3) == 8;
    }
  }

  // Row transitions

  predicate Stale(r: Reminder, tenant: Tenant, now: int) {
    r.tenant == tenant && r.status.Delivering? &&
    (r.lastAttempt.None? || r.lastAttempt.value < now - LEASE_TIMEOUT)
  }

  function Recover(r: Reminder, tenant: Tenant, now: int): Reminder {
    if Stale(r, tenant, now) then r.(status := Pending, nextRetry := Some(now)) else r
  }

  predicate Due(r: Reminder, tenant: Tenant, now: int) {
    r.tenant == tenant && r.status.Pending? && r.remindAt <= now &&
    (r.nextRetry.None? || r.nextRetry.value <= now) && r.attempts < MAX_ATTEMPTS
  }

  function Claimed(r: Reminder, now: int): Reminder {
    r.(status := Delivering, attempts := r.attempts + 1, lastAttempt := Some(now), nextRetry := None)
  }

  predicate HoldsLease(r: Reminder, now: int) {
    r.status.Delivering? && r.lastAttempt == Some(now)
  }

  function Finalized(r: Reminder, now: int, outcome: Outcome, seen: int): Reminder {
    if outcome.Delivered? then r.(status := Sent, sentAt := Some(now), nextRetry := None)
    else if outcome.NotConfigured? || seen >= MAX_ATTEMPTS then
      r.(status := Failed, sentAt := None, nextRetry := None)
    else r.(status := Pending, sentAt := None, nextRetry := Some(now + RetryDelay(seen)))
  }

  function Lookup(t: Table, id: Id): Option<Reminder> {
    if id in t then Some(t[id]) else None
  }

  function RowAfter(t: Table, e: Event, id: Id): Option<Reminder> {
    match e
    case Create(new_, tenant, channel, remindAt) =>
      if new_ == id && id !in t then Some(Reminder(tenant, channel, Pending, remindAt, 0, None, None, None))
      else Lookup(t, id)
    case Claim(tenant, ids, now) =>
      if id !in t then None
      else
        var r := Recover(t[id], tenant, now);
        Some(if id in ids then Claimed(r, now) else r)
    case Finalize(target, now, outcome, seen) =>
      if id !in t then None
      else Some(if id == target && HoldsLease(t[id], now) then Finalized(t[id], now, outcome, seen) else t[id])
  }

  function Apply(t: Table, e: Event): Table {
    var ids := if e.Create? then t.Keys + {e.id} else t.Keys;
    map id | id in ids :: RowAfter(t, e, id).value
  }

  // Runs of interleaved workers

  function After(events: seq<Event>, n: nat): Table
    requires n <= |events|
  {
    if n == 0 then map[] else Apply(After(events, n - 1), events[n - 1])
  }

  /** Event j is the claim of the reminder by the sweep that runs at `now`. */
  ghost predicate ClaimsAt(events: seq<Event>, j: nat, id: Id, now: int)
    requires j < |events|
  {
    events[j].Claim? && id in events[j].ids && events[j].now == now
  }

  /** The attempt count that a sweep read back some time after its claim j and before event i. */
  ghost predicate ReadBetween(events: seq<Event>, j: nat, i: nat, id: Id, seen: int)
    requires i <= |events|
  {
    exists m | j < m <= i :: SeenAt(events, m, id, seen)
  }

  ghost predicate SeenAt(events: seq<Event>, m: nat, id: Id, seen: int)
    requires m <= |events|
  {
    id in After(events, m) && After(events, m)[id].attempts == seen
  }

  /**
   * Claims take due rows; a sweep finalises only what it claimed, with the count it read since.
   * Workers may crash at any point, may be arbitrarily late, and their clocks need not agree.
   */
  ghost predicate LegalAt(events: seq<Event>, i: nat)
    requires i < |events|
  {
    match events[i]
    case Create(id, _, _, _) => id !in After(events, i)
    case Claim(tenant, ids, now) =>
      forall id | id in ids :: id in After(events, i) && Due(Recover(After(events, i)[id], tenant, now), tenant, now)
    case Finalize(id, now, _, seen) =>
      exists j | 0 <= j < i :: ClaimsAt(events, j, id, now) && ReadBetween(events, j, i, id, seen)
  }

  ghost predicate LegalRun(events: seq<Event>) {
    forall i | 0 <= i < |events| :: LegalAt(events, i)
  }

  /** How often the reminder was claimed by the first n events. */
  ghost function ClaimCount(events: seq<Event>, id: Id, n: nat): nat
    requires n <= |events|
  {
    if n == 0 then 0
    else ClaimCount(events, id, n - 1) + (if ClaimsAt(events, n - 1, id, TimeOf(events[n - 1])) then 1 else 0)
  }

  function TimeOf(e: Event): int { if e.Create? then e.remindAt else e.now }

  /** The time of the latest claim among the first n events. */
  ghost function LatestClaim(events: seq<Event>, id: Id, n: nat): Option<int>
    requires n <= |events|
  {
    if n == 0 then None
    else if ClaimsAt(events, n - 1, id, TimeOf(events[n - 1])) then Some(TimeOf(events[n - 1]))
    else LatestClaim(events, id, n - 1)
  }

  // The row invariant

  /** A retry never comes due at or before the attempt it retries; nothing else has a retry; what is sent says when. */
  ghost predicate SafeRow(r: Reminder) {
    0 <= r.attempts <= MAX_ATTEMPTS &&
    (r.status.Delivering? ==> r.lastAttempt.Some? && r.attempts >= 1) &&
    (r.lastAttempt.None? <==> r.attempts == 0) &&
    (r.status.Pending? && r.lastAttempt.Some? ==> r.nextRetry.Some? && r.lastAttempt.value < r.nextRetry.value) &&
    (!r.status.Pending? ==> r.nextRetry.None?) && (r.status.Sent? <==> r.sentAt.Some?)
  }

  ghost predicate ClaimsDue(t: Table, e: Event) {
    e.Claim? ==> forall id | id in e.ids :: id in t && Due(Recover(t[id], e.tenant, e.now), e.tenant, e.now)
  }

  lemma LegalClaimsDue(events: seq<Event>, i: nat)
    requires i < |events| && LegalAt(events, i)
    ensures ClaimsDue(After(events, i), events[i])
  {
  }

  lemma StepKeepsSafe(t: Table, e: Event, id: Id)
    requires ClaimsDue(t, e) && (id in t ==> SafeRow(t[id])) && id in Apply(t, e)
    ensures SafeRow(Apply(t, e)[id])
  {
    hide RetryDelay;
    assert Lookup(Apply(t, e), id) == RowAfter(t, e, id);
  }

  lemma {:induction false} RunIsSafe(events: seq<Event>, n: nat, id: Id)
    requires LegalRun(events) && n <= |events| && id in After(events, n)
    ensures SafeRow(After(events, n)[id])
  {
    assert LegalAt(events, n - 1);
    LegalClaimsDue(events, n - 1);
    if id in After(events, n - 1) {
      RunIsSafe(events, n - 1, id);
    }
    hide Apply;
    StepKeepsSafe(After(events, n - 1), events[n - 1], id);
  }

  lemma StepKeepsIdentity(t: Table, e: Event, id: Id)
    requires id in t
    ensures id in Apply(t, e) && Apply(t, e)[id].tenant == t[id].tenant && Apply(t, e)[id].channel == t[id].channel &&
            Apply(t, e)[id].remindAt == t[id].remindAt
  {
    hide RetryDelay;
    assert Lookup(Apply(t, e), id) == RowAfter(t, e, id);
  }

  /** Whatever happens to a reminder, it stays the one that was asked for. */
  lemma {:induction false} IdentityStands(events: seq<Event>, i: nat, n: nat)
    requires LegalRun(events) && i < n <= |events| && events[i].Create?
    ensures var e := events[i];
            e.id in After(events, n) && After(events, n)[e.id].tenant == e.tenant &&
            After(events, n)[e.id].channel == e.channel && After(events, n)[e.id].remindAt == e.remindAt
  {
    var id := events[i].id;
    if i + 1 < n {
      IdentityStands(events, i, n - 1);
      StepKeepsIdentity(After(events, n - 1), events[n - 1], id);
      hide Apply;
    } else {
      assert LegalAt(events, i);
      assert Lookup(After(events, n), id) == RowAfter(After(events, i), events[i], id);
    }
  }

  lemma StepCounts(t: Table, e: Event, id: Id)
    requires ClaimsDue(t, e) && id in Apply(t, e) && (e.Create? && e.id == id ==> id !in t)
    ensures id !in t ==>
              Apply(t, e)[id].attempts == 0 && Apply(t, e)[id].lastAttempt == None && !(e.Claim? && id in e.ids)
    ensures id in t ==>
              if e.Claim? && id in e.ids then
                Apply(t, e)[id].attempts == t[id].attempts + 1 && Apply(t, e)[id].lastAttempt == Some(e.now)
              else Apply(t, e)[id].attempts == t[id].attempts && Apply(t, e)[id].lastAttempt == t[id].lastAttempt
  {
    assert Lookup(Apply(t, e), id) == RowAfter(t, e, id);
  }

  lemma {:induction false} RowsStay(events: seq<Event>, i: nat, n: nat, id: Id)
    requires i <= n <= |events| && id in After(events, i)
    ensures id in After(events, n)
  {
    if i < n {
      RowsStay(events, i, n - 1, id);
    }
  }

  lemma {:induction false} AbsentMeansUnclaimed(events: seq<Event>, n: nat, id: Id)
    requires LegalRun(events) && n <= |events| && id !in After(events, n)
    ensures ClaimCount(events, id, n) == 0 && LatestClaim(events, id, n) == None
  {
    if n > 0 {
      assert LegalAt(events, n - 1);
      AbsentMeansUnclaimed(events, n - 1, id);
    }
  }

  /** attempt_count is the number of claims, and last_attempt_at the time of the latest one. */
  lemma {:induction false} AttemptsAreClaims(events: seq<Event>, n: nat, id: Id)
    requires LegalRun(events) && n <= |events| && id in After(events, n)
    ensures After(events, n)[id].attempts == ClaimCount(events, id, n) <= MAX_ATTEMPTS
    ensures After(events, n)[id].lastAttempt == LatestClaim(events, id, n)
  {
    RunIsSafe(events, n, id);
    assert LegalAt(events, n - 1);
    LegalClaimsDue(events, n - 1);
    if id in After(events, n - 1) {
      AttemptsAreClaims(events, n - 1, id);
    } else {
      AbsentMeansUnclaimed(events, n - 1, id);
    }
    StepCounts(After(events, n - 1), events[n - 1], id);
  }

  // Fencing

  /** A claim is later than every earlier claim of the same reminder, whatever the workers' clocks say. */
  lemma {:induction false} ClaimTimesIncrease(events: seq<Event>, i: nat, j: nat, id: Id)
    requires LegalRun(events) && i < j < |events|
    requires ClaimsAt(events, i, id, TimeOf(events[i])) && ClaimsAt(events, j, id, TimeOf(events[j]))
    ensures events[i].now < events[j].now
    decreases j
  {
    LatestClaimFrom(events, i, j, id);
    assert LegalAt(events, j);
    var t := After(events, j);
    assert id in t && Due(Recover(t[id], events[j].tenant, events[j].now), events[j].tenant, events[j].now);
    RunIsSafe(events, j, id);
    AttemptsAreClaims(events, j, id);
    assert t[id].lastAttempt.value < events[j].now;
  }

  /** The latest claim before event j is no earlier than any claim before it. */
  lemma {:induction false} LatestClaimFrom(events: seq<Event>, i: nat, j: nat, id: Id)
    requires LegalRun(events) && i < j <= |events| && ClaimsAt(events, i, id, TimeOf(events[i]))
    ensures LatestClaim(events, id, j).Some? && events[i].now <= LatestClaim(events, id, j).value
    decreases j, 0
  {
    if i < j - 1 {
      LatestClaimFrom(events, i, j - 1, id);
      if ClaimsAt(events, j - 1, id, TimeOf(events[j - 1])) {
        ClaimTimesIncrease(events, i, j - 1, id);
      }
    }
  }

  lemma {:induction false} NoClaimNoChange(events: seq<Event>, i: nat, n: nat, id: Id)
    requires LegalRun(events) && i <= n <= |events| && id in After(events, i)
    requires forall j | i <= j < n :: !ClaimsAt(events, j, id, TimeOf(events[j]))
    ensures id in After(events, n) && After(events, n)[id].attempts == After(events, i)[id].attempts
  {
    if i < n {
      NoClaimNoChange(events, i, n - 1, id);
      assert LegalAt(events, n - 1);
      LegalClaimsDue(events, n - 1);
      RowsStay(events, n - 1, n, id);
      assert !ClaimsAt(events, n - 1, id, TimeOf(events[n - 1]));
      StepCounts(After(events, n - 1), events[n - 1], id);
    }
  }

  /**
   * Fencing: an outcome that is written comes from the latest claim of the reminder, and the
   * attempt count its sweep read is still the count of the row.
   */
  lemma {:induction false} OnlyTheLatestClaimWrites(events: seq<Event>, i: nat)
    requires LegalRun(events) && i < |events| && events[i].Finalize?
    requires var e := events[i]; e.id in After(events, i) && HoldsLease(After(events, i)[e.id], e.now)
    ensures var e := events[i];
            LatestClaim(events, e.id, i) == Some(e.now) && After(events, i)[e.id].attempts == e.seen
  {
    var e := events[i];
    assert LegalAt(events, i);
    AttemptsAreClaims(events, i, e.id);
    var j :| 0 <= j < i && ClaimsAt(events, j, e.id, e.now) && ReadBetween(events, j, i, e.id, e.seen);
    var m :| j < m <= i && SeenAt(events, m, e.id, e.seen);
    forall k | j < k < i ensures !ClaimsAt(events, k, e.id, TimeOf(events[k])) {
      if ClaimsAt(events, k, e.id, TimeOf(events[k])) {
        ClaimTimesIncrease(events, j, k, e.id);
        LatestClaimFrom(events, k, i, e.id);
      }
    }
    NoClaimNoChange(events, m, i, e.id);
  }

  /** A late worker, whose reminder was claimed again, changes nothing. */
  lemma LateWorkerWritesNothing(events: seq<Event>, j: nat, k: nat, i: nat, id: Id)
    requires LegalRun(events) && j < k < i < |events|
    requires ClaimsAt(events, j, id, TimeOf(events[j])) && ClaimsAt(events, k, id, TimeOf(events[k]))
    requires events[i].Finalize? && events[i].id == id && events[i].now == events[j].now
    ensures After(events, i + 1) == After(events, i)
  {
    if id in After(events, i) && HoldsLease(After(events, i)[id], events[i].now) {
      AttemptsAreClaims(events, i, id);
      ClaimTimesIncrease(events, j, k, id);
      LatestClaimFrom(events, k, i, id);
    }
  }

  // Final states

  ghost predicate Final(t: Table, id: Id) {
    id in t && (t[id].status.Sent? || t[id].status.Failed?)
  }

  /** SENT and FAILED are never left. */
  lemma {:induction false} OutcomesAreFinal(events: seq<Event>, i: nat, n: nat, id: Id)
    requires LegalRun(events) && i <= n <= |events| && Final(After(events, i), id)
    ensures id in After(events, n) && After(events, n)[id] == After(events, i)[id]
  {
    if i < n {
      OutcomesAreFinal(events, i, n - 1, id);
      assert LegalAt(events, n - 1);
      LegalClaimsDue(events, n - 1);
    }
  }

  /** A reminder that waits with no attempt left. */
  ghost predicate Lost(t: Table, id: Id) {
    id in t && t[id].status.Pending? && t[id].attempts >= MAX_ATTEMPTS
  }

  /** A reminder gets lost exactly when the lease of its last attempt goes stale. */
  lemma LostExactlyByRecovery(events: seq<Event>, i: nat, id: Id)
    requires LegalRun(events) && i < |events| && !Lost(After(events, i), id)
    ensures Lost(After(events, i + 1), id) <==>
            var t, e := After(events, i), events[i];
            id in t && t[id].attempts == MAX_ATTEMPTS && e.Claim? && Stale(t[id], e.tenant, e.now)
  {
    var t, e := After(events, i), events[i];
    assert LegalAt(events, i);
    LegalClaimsDue(events, i);
    if id in t {
      RunIsSafe(events, i, id);
      if e.Finalize? && e.id == id && HoldsLease(t[id], e.now) {
        OnlyTheLatestClaimWrites(events, i);
      }
    }
    assert Lookup(Apply(t, e), id) == RowAfter(t, e, id);
  }

  /** A lost reminder is never claimed again: it is neither sent nor reported as failed. */
  lemma {:induction false} LostForever(events: seq<Event>, i: nat, n: nat, id: Id)
    requires LegalRun(events) && i <= n <= |events| && Lost(After(events, i), id)
    ensures Lost(After(events, n), id) && After(events, n)[id] == After(events, i)[id]
  {
    if i < n {
      LostForever(events, i, n - 1, id);
      assert LegalAt(events, n - 1);
      LegalClaimsDue(events, n - 1);
    }
  }

  // One worker

  datatype Counts = Counts(processed: nat, sent: nat, failed: nat)

  /** What the endpoint of a channel answers; in-app reminders need no endpoint. */
  datatype Reply = Accepted | Refused | NoEndpoint

  function OutcomeOf(channel: Channel, reply: Reply): Outcome {
    if channel.InApp? || reply.Accepted? then Delivered
    else if reply.NoEndpoint? then NotConfigured
    else Rejected
  }

  lemma {:induction false} EarliestAmong(t: Table, ids: set<Id>) returns (first: Id)
    requires ids != {} && ids <= t.Keys
    ensures first in ids && forall id | id in ids :: t[first].remindAt <= t[id].remindAt
  {
    var x :| x in ids;
    if ids == {x} {
      first := x;
    } else {
      var y := EarliestAmong(t, ids - {x});
      first := if t[x].remindAt <= t[y].remindAt then x else y;
    }
  }

  function Recovered(t: Table, tenant: Tenant, now: int): Table {
    map id | id in t :: Recover(t[id], tenant, now)
  }

  function DueIds(t: Table, tenant: Tenant, now: int, locked: set<Id>): set<Id> {
    set id | id in t && id !in locked && Due(t[id], tenant, now)
  }

  /**
   * What a sweep may claim, on the rows as it finds them: a reminder of the tenant whose time has come, with fewer than
   * eight attempts, that waits and is due again, or whose delivery began more than fifteen minutes ago.
   */
  predicate MayClaim(r: Reminder, tenant: Tenant, now: int) {
    r.tenant == tenant && r.remindAt <= now && r.attempts < 8 &&
    match r.status
    case Pending => r.nextRetry.None? || r.nextRetry.value <= now
    case Delivering => r.lastAttempt.None? || r.lastAttempt.value + 900 < now
    case Sent => false
    case Failed => false
  }

  lemma DueIff(t: Table, tenant: Tenant, now: int, locked: set<Id>, id: Id)
    ensures id in DueIds(Recovered(t, tenant, now), tenant, now, locked) <==>
            id in t && id !in locked && MayClaim(t[id], tenant, now)
  {
  }

  /** A claim takes only such reminders, and all of them if there is room. */
  ghost predicate ClaimsWhatItMay(t: Table, tenant: Tenant, now: int, locked: set<Id>, room: nat, claimed: set<Id>) {
    (forall id | id in claimed :: id in t && id !in locked && MayClaim(t[id], tenant, now)) && |claimed| <= room &&
    (|claimed| < room ==> forall id | id in t && id !in locked && MayClaim(t[id], tenant, now) :: id in claimed) &&
    forall c, id | c in claimed && id in t && id !in locked && MayClaim(t[id], tenant, now) && id !in claimed ::
      c in t && t[c].remindAt <= t[id].remindAt
  }

  lemma PassClaimsMeans(t: Table, tenant: Tenant, now: int, locked: set<Id>, room: nat, claimed: set<Id>)
    requires PassClaims(t, tenant, now, locked, room, claimed)
    ensures ClaimsWhatItMay(t, tenant, now, locked, room, claimed)
  {
    hide MayClaim, DueIds;
    var due := DueIds(Recovered(t, tenant, now), tenant, now, locked);
    forall id: Id ensures id in due <==> id in t && id !in locked && MayClaim(t[id], tenant, now) {
      DueIff(t, tenant, now, locked, id);
    }
    if |claimed| < room {
      SameSize(claimed, due);
    }
  }

  lemma {:induction false} SameSize(a: set<Id>, b: set<Id>)
    requires a <= b && |a| == |b|
    ensures a == b
  {
    if a != {} {
      var x :| x in a;
      SameSize(a - {x}, b - {x});
    }
  }

  /** Every row not claimed is as it was, but for the tenant's deliveries that began more than fifteen minutes ago. */
  lemma PassSpares(t: Table, tenant: Tenant, claimed: set<Id>, now: int, replies: map<Id, Reply>, id: Id)
    requires id in t && id !in claimed
    ensures id in Pass(t, tenant, claimed, now, replies)
    ensures var r := Pass(t, tenant, claimed, now, replies)[id];
            if t[id].tenant == tenant && t[id].status == Delivering &&
               (t[id].lastAttempt.None? || t[id].lastAttempt.value + 900 < now)
            then r == t[id].(status := Pending, nextRetry := Some(now))
            else r == t[id]
  {
  }

  /** The due reminders that are claimed: the earliest `room` of those no other session has locked. */
  method SelectDue(t: Table, due: set<Id>, room: nat) returns (chosen: set<Id>)
    requires due <= t.Keys
    ensures chosen <= due && |chosen| == Min(room, |due|)
    ensures forall c, id | c in chosen && id in due && id !in chosen :: t[c].remindAt <= t[id].remindAt
  {
    chosen := {};
    var rest := due;
    while rest != {} && |chosen| < room
      invariant chosen <= due && rest == due - chosen && |chosen| <= room && |chosen| + |rest| == |due|
      invariant forall c, id | c in chosen && id in rest :: t[c].remindAt <= t[id].remindAt
      decreases rest
    {
      ghost var earliest := EarliestAmong(t, rest);
      var next :| next in rest && forall id | id in rest :: t[next].remindAt <= t[id].remindAt;
      chosen := chosen + {next};
      rest := rest - {next};
    }
  }

  class ReminderTable {
    var rows: Table

    constructor ()
      ensures rows == map[]
    {
      rows := map[];
    }

    /** Recovers stale leases of the tenant and claims what is due, in one transaction. */
    method RecoverAndClaim(tenant: Tenant, now: int, room: nat, locked: set<Id>) returns (claimed: set<Id>)
      modifies this
      ensures rows == Apply(old(rows), Claim(tenant, claimed, now))
      ensures ClaimsDue(old(rows), Claim(tenant, claimed, now)) && claimed <= rows.Keys
      ensures PassClaims(old(rows), tenant, now, locked, room, claimed)
      ensures ClaimsWhatItMay(old(rows), tenant, now, locked, room, claimed)
    {
      rows := Recovered(rows, tenant, now);
      claimed := SelectDue(rows, DueIds(rows, tenant, now, locked), room);
      rows := map id | id in rows :: if id in claimed then Claimed(rows[id], now) else rows[id];
      PassClaimsMeans(old(rows), tenant, now, locked, room, claimed);
    }

    /** Writes the outcome if the lease of this sweep still stands. */
    method FinalizeRow(id: Id, now: int, outcome: Outcome, seen: int)
      modifies this
      ensures rows == Apply(old(rows), Finalize(id, now, outcome, seen))
    {
      if id in rows && HoldsLease(rows[id], now) {
        rows := rows[id := Finalized(rows[id], now, outcome, seen)];
      }
      assert rows == Apply(old(rows), Finalize(id, now, outcome, seen));
    }

    /** The delivery of the claimed rows, each one written under its lease. */
    method DeliverClaimed(claimed: set<Id>, now: int, replies: map<Id, Reply>, counts: Counts) returns (total: Counts)
      requires claimed <= rows.Keys
      requires forall id | id in claimed :: HoldsLease(rows[id], now)
      modifies this
      ensures total == Counted(counts, old(rows), claimed, replies)
      ensures rows == Ended(old(rows), claimed, now, replies)
      ensures forall id | id in claimed :: Answered(old(rows)[id], old(rows)[id].attempts, rows[id], id, now, replies)
      ensures total.sent == counts.sent + |SentOf(rows, claimed)|
      ensures total.failed == counts.failed + |claimed - SentOf(rows, claimed)|
    {
      hide *;
      total := counts;
      var rest := claimed;
      ghost var done: set<Id> := {};
      NothingEnded(counts, rows, now, replies);
      while rest != {}
        invariant done !! rest && done + rest == claimed
        invariant total == Counted(counts, old(rows), done, replies)
        invariant rows == Ended(old(rows), done, now, replies)
        decreases rest
      {
        var id :| id in rest;
        EndedRow(old(rows), done, id, now, replies);
        var row := rows[id];
        var outcome := OutcomeFor(row, id, replies);
        if outcome.Delivered? {
          total := total.(processed := total.processed + 1, sent := total.sent + 1);
        } else {
          total := total.(processed := total.processed + 1, failed := total.failed + 1);
        }
        FinalizeRow(id, now, outcome, row.attempts);
        CountedMore(counts, old(rows), done, id, replies);
        EndedMore(old(rows), done, id, now, replies);
        done := done + {id};
        rest := rest - {id};
      }
      assert done == claimed;
      EndedMeans(counts, old(rows), claimed, now, replies);
    }

    /**
     * A sweep that is not interrupted: tenant after tenant it claims what is due, as far as the
     * limit goes, and writes an outcome for each claimed reminder.
     */
    method DeliverDue(tenants: seq<Tenant>, now: int, limit: int, locked: set<Id>, replies: map<Id, Reply>)
      returns (counts: Counts, ghost claims: seq<set<Id>>)
      modifies this
      ensures |claims| <= |tenants| && (|claims| < |tenants| ==> Stops(claims, |claims|, limit))
      ensures SweptSoFar(old(rows), rows, tenants, claims, now, limit, locked, replies, counts)
    {
      hide *;
      counts, claims := Counts(0, 0, 0), [];
      ghost var t := rows;
      NothingSwept(t, tenants, now, limit, locked, replies);
      for i := 0 to |tenants|
        invariant |claims| == i && !Stops(claims, i, limit)
        invariant SweptSoFar(t, rows, tenants, claims, now, limit, locked, replies, counts)
      {
        ghost var before := rows;
        var claimed;
        ghost var earlier := counts;
        claimed, counts := DeliverTenant(tenants[i], now, Max(0, limit - counts.processed), locked, replies, counts);
        SweptMore(t, before, tenants, claims, now, limit, locked, replies, earlier, claimed);
        claims := claims + [claimed];
        if claimed != {} && counts.processed >= limit {
          break;
        }
      }
    }

    method DeliverTenant(tenant: Tenant, now: int, room: nat, locked: set<Id>, replies: map<Id, Reply>, counts: Counts)
      returns (claimed: set<Id>, total: Counts)
      modifies this
      ensures PassClaims(old(rows), tenant, now, locked, room, claimed)
      ensures ClaimsWhatItMay(old(rows), tenant, now, locked, room, claimed)
      ensures rows == Pass(old(rows), tenant, claimed, now, replies)
      ensures total == Counted(counts, old(rows), claimed, replies)
      ensures forall id | id in claimed ::
                id in old(rows) && Answered(old(rows)[id], old(rows)[id].attempts + 1, rows[id], id, now, replies)
      ensures total.sent == counts.sent + |SentOf(rows, claimed)|
      ensures total.failed == counts.failed + |claimed - SentOf(rows, claimed)|
    {
      hide *;
      PassMeans(old(rows), tenant, now, replies);
      claimed := RecoverAndClaim(tenant, now, room, locked);
      ClaimIsPartOfPass(old(rows), tenant, claimed, now, replies, counts);
      total := DeliverClaimed(claimed, now, replies, counts);
    }
  }

  /** The reminder needs no endpoint, or its endpoint accepted it. */
  predicate Accepts(channel: Channel, id: Id, replies: map<Id, Reply>) {
    channel.InApp? || (id in replies && replies[id].Accepted?)
  }

  /**
   * What the delivery of a claimed reminder leaves, after so many attempts: it is SENT if it was accepted, FAILED if
   * there is no endpoint or no attempt left, and otherwise PENDING for a minute, doubled with each attempt, up to six
   * hours.
   */
  predicate Answered(r: Reminder, attempts: int, after: Reminder, id: Id, now: int, replies: map<Id, Reply>) {
    var accepted := Accepts(r.channel, id, replies);
    (after.status.Sent? <==> accepted) &&
    (after.status.Failed? <==> !accepted && ((id in replies && replies[id].NoEndpoint?) || attempts >= 8)) &&
    !after.status.Delivering? &&
    after.sentAt == (if accepted then Some(now) else None) &&
    (after.nextRetry ==
     if after.status.Pending? then Some(now + Min(60 * Pow2(Max(attempts - 1, 0)), 21600)) else None) &&
    after.attempts == attempts && after.lastAttempt == Some(now) &&
    after.tenant == r.tenant && after.channel == r.channel && after.remindAt == r.remindAt
  }

  function SentOf(t: Table, claimed: set<Id>): set<Id> {
    set id | id in claimed && id in t && t[id].status.Sent?
  }

  lemma OutcomeMeans(r: Reminder, id: Id, now: int, replies: map<Id, Reply>)
    ensures OutcomeFor(r, id, replies).Delivered? <==> Accepts(r.channel, id, replies)
    ensures r.lastAttempt == Some(now) ==>
              Answered(r, r.attempts, Finalized(r, now, OutcomeFor(r, id, replies), r.attempts), id, now, replies)
  {
  }

  lemma EndedMeans(counts: Counts, t: Table, claimed: set<Id>, now: int, replies: map<Id, Reply>)
    requires claimed <= t.Keys && forall id | id in claimed :: HoldsLease(t[id], now)
    ensures var after := Ended(t, claimed, now, replies);
            (forall id | id in claimed :: Answered(t[id], t[id].attempts, after[id], id, now, replies)) &&
            Counted(counts, t, claimed, replies).sent == counts.sent + |SentOf(after, claimed)| &&
            Counted(counts, t, claimed, replies).failed == counts.failed + |claimed - SentOf(after, claimed)|
  {
    hide OutcomeFor, Finalized, RetryDelay, Accepts;
    var after := Ended(t, claimed, now, replies);
    forall id | id in claimed
      ensures Answered(t[id], t[id].attempts, after[id], id, now, replies)
      ensures OutcomeFor(t[id], id, replies).Delivered? <==> after[id].status.Sent?
    {
      OutcomeMeans(t[id], id, now, replies);
    }
    hide Answered;
    assert SentAmong(t, claimed, replies) == SentOf(after, claimed);
    assert FailedAmong(t, claimed, replies) == claimed - SentOf(after, claimed);
  }

  /** The same for a whole pass, which claims the reminders first and so counts the attempt. */
  lemma PassMeans(t: Table, tenant: Tenant, now: int, replies: map<Id, Reply>)
    ensures forall claimed: set<Id>, id | id in claimed && id in t ::
              Answered(t[id], t[id].attempts + 1, Pass(t, tenant, claimed, now, replies)[id], id, now, replies)
  {
    forall claimed: set<Id>, id | id in claimed && id in t
      ensures Answered(t[id], t[id].attempts + 1, Pass(t, tenant, claimed, now, replies)[id], id, now, replies)
    {
      OutcomeMeans(Claimed(Recover(t[id], tenant, now), now), id, now, replies);
    }
  }

  /** The claimed rows with the outcome of this sweep. */
  function Ended(t: Table, claimed: set<Id>, now: int, replies: map<Id, Reply>): Table {
    map id | id in t ::
      if id in claimed then Finalized(t[id], now, OutcomeFor(t[id], id, replies), t[id].attempts) else t[id]
  }

  lemma NothingEnded(counts: Counts, t: Table, now: int, replies: map<Id, Reply>)
    ensures Ended(t, {}, now, replies) == t && Counted(counts, t, {}, replies) == counts
  {
    assert SentAmong(t, {}, replies) == {} && FailedAmong(t, {}, replies) == {};
  }

  lemma EndedRow(t: Table, done: set<Id>, id: Id, now: int, replies: map<Id, Reply>)
    requires id in t && id !in done
    ensures id in Ended(t, done, now, replies) && Ended(t, done, now, replies)[id] == t[id]
  {
  }

  lemma EndedMore(t: Table, done: set<Id>, id: Id, now: int, replies: map<Id, Reply>)
    requires id in t && id !in done && HoldsLease(t[id], now)
    ensures Apply(Ended(t, done, now, replies), Finalize(id, now, OutcomeFor(t[id], id, replies), t[id].attempts)) ==
            Ended(t, done + {id}, now, replies)
  {
    hide RetryDelay, OutcomeFor;
  }

  function SentAmong(t: Table, claimed: set<Id>, replies: map<Id, Reply>): set<Id> {
    set id | id in claimed && id in t && OutcomeFor(t[id], id, replies).Delivered?
  }

  function FailedAmong(t: Table, claimed: set<Id>, replies: map<Id, Reply>): set<Id> {
    set id | id in claimed && id in t && !OutcomeFor(t[id], id, replies).Delivered?
  }

  /** Every claimed reminder is counted once, as sent if it was delivered and as failed otherwise. */
  function Counted(counts: Counts, t: Table, claimed: set<Id>, replies: map<Id, Reply>): Counts {
    Counts(counts.processed + |claimed|, counts.sent + |SentAmong(t, claimed, replies)|,
           counts.failed + |FailedAmong(t, claimed, replies)|)
  }

  lemma CountedMore(counts: Counts, t: Table, claimed: set<Id>, id: Id, replies: map<Id, Reply>)
    requires id !in claimed && id in t
    ensures Counted(counts, t, claimed + {id}, replies) ==
            (var c := Counted(counts, t, claimed, replies);
             if OutcomeFor(t[id], id, replies).Delivered?
             then Counts(c.processed + 1, c.sent + 1, c.failed) else Counts(c.processed + 1, c.sent, c.failed + 1))
  {
    hide SentAmong, FailedAmong, OutcomeFor;
    AmongMore(t, claimed, id, replies);
  }

  lemma AmongMore(t: Table, claimed: set<Id>, id: Id, replies: map<Id, Reply>)
    requires id !in claimed && id in t
    ensures var sent, failed := SentAmong(t, claimed, replies), FailedAmong(t, claimed, replies);
            var delivered := OutcomeFor(t[id], id, replies).Delivered?;
            id !in sent && id !in failed &&
            SentAmong(t, claimed + {id}, replies) == (if delivered then sent + {id} else sent) &&
            FailedAmong(t, claimed + {id}, replies) == (if delivered then failed else failed + {id})
  {
    hide OutcomeFor;
  }

  function TotalCounts(t: Table, claims: seq<set<Id>>, replies: map<Id, Reply>): Counts {
    if claims == [] then Counts(0, 0, 0)
    else Counted(TotalCounts(t, claims[..|claims| - 1], replies), t, claims[|claims| - 1], replies)
  }

  /** The sweep ends after the n-th tenant: it claimed something and used up the limit. */
  ghost predicate Stops(claims: seq<set<Id>>, n: nat, limit: int) {
    0 < n <= |claims| && claims[n - 1] != {} && TotalSize(claims[..n]) >= limit
  }

  ghost predicate SameChannels(t: Table, t': Table) {
    t.Keys == t'.Keys && forall id | id in t :: t[id].channel == t'[id].channel
  }

  lemma SameChannelsCount(t: Table, t': Table, claimed: set<Id>, replies: map<Id, Reply>, counts: Counts)
    requires SameChannels(t, t')
    ensures Counted(counts, t, claimed, replies) == Counted(counts, t', claimed, replies)
  {
    assert SentAmong(t, claimed, replies) == SentAmong(t', claimed, replies);
    assert FailedAmong(t, claimed, replies) == FailedAmong(t', claimed, replies);
  }

  lemma PassKeepsChannels(t: Table, before: Table, tenant: Tenant, claimed: set<Id>, now: int, replies: map<Id, Reply>)
    requires SameChannels(t, before)
    ensures SameChannels(t, Pass(before, tenant, claimed, now, replies))
  {
    hide RetryDelay, OutcomeFor;
  }

  /** A pass is a claim followed by the outcomes of the claimed rows. */
  lemma ClaimIsPartOfPass(t: Table, tenant: Tenant, claimed: set<Id>, now: int, replies: map<Id, Reply>, counts: Counts)
    requires ClaimsDue(t, Claim(tenant, claimed, now)) && claimed <= Apply(t, Claim(tenant, claimed, now)).Keys
    ensures var leased := Apply(t, Claim(tenant, claimed, now));
            Ended(leased, claimed, now, replies) == Pass(t, tenant, claimed, now, replies) &&
            (forall id | id in claimed :: HoldsLease(leased[id], now)) &&
            Counted(counts, leased, claimed, replies) == Counted(counts, t, claimed, replies)
  {
    hide RetryDelay, OutcomeOf, Counted;
    var leased := Apply(t, Claim(tenant, claimed, now));
    SameChannelsCount(t, leased, claimed, replies, counts);
  }

  /** What a sweep has done after some tenants: their claims in turn, the outcomes, and the counts of both. */
  ghost predicate SweptSoFar(t: Table, rows: Table, tenants: seq<Tenant>, claims: seq<set<Id>>, now: int, limit: int,
                             locked: set<Id>, replies: map<Id, Reply>, counts: Counts)
  {
    |claims| <= |tenants| &&
    ClaimedInTurn(t, tenants, claims, now, limit, locked, replies) &&
    rows == Passes(t, tenants, claims, now, replies) &&
    counts == TotalCounts(t, claims, replies) && counts.processed == TotalSize(claims) <= Max(0, limit) &&
    SameChannels(t, rows) && forall k | 0 < k < |claims| :: !Stops(claims, k, limit)
  }

  lemma NothingSwept(t: Table, tenants: seq<Tenant>, now: int, limit: int, locked: set<Id>, replies: map<Id, Reply>)
    ensures SweptSoFar(t, t, tenants, [], now, limit, locked, replies, Counts(0, 0, 0)) && !Stops([], 0, limit)
  {
  }

  lemma SweptMore(t: Table, rows: Table, tenants: seq<Tenant>, claims: seq<set<Id>>, now: int, limit: int,
                  locked: set<Id>, replies: map<Id, Reply>, counts: Counts, claimed: set<Id>)
    requires SweptSoFar(t, rows, tenants, claims, now, limit, locked, replies, counts)
    requires |claims| < |tenants| && !Stops(claims, |claims|, limit)
    requires PassClaims(rows, tenants[|claims|], now, locked, Max(0, limit - counts.processed), claimed)
    ensures var total := Counted(counts, rows, claimed, replies);
            SweptSoFar(t, Pass(rows, tenants[|claims|], claimed, now, replies), tenants, claims + [claimed], now, limit,
                       locked, replies, total) &&
            (Stops(claims + [claimed], |claims| + 1, limit) <==> claimed != {} && total.processed >= limit)
  {
    hide Pass, SameChannels, SentAmong, FailedAmong, DueIds, Recovered;
    var n, more := |claims|, claims + [claimed];
    assert more[..n] == claims && more[..n + 1] == more;
    PassKeepsChannels(t, rows, tenants[n], claimed, now, replies);
    SameChannelsCount(t, rows, claimed, replies, counts);
    forall k | 0 < k <= n ensures !Stops(more, k, limit) {
      assert more[..k] == claims[..k] && more[k - 1] == claims[k - 1];
      assert !Stops(claims, k, limit);
    }
  }

  /** One tenant's part of a sweep: recover, claim, and finalise each claimed row. */
  function Pass(t: Table, tenant: Tenant, claimed: set<Id>, now: int, replies: map<Id, Reply>): Table {
    map id | id in t ::
      var r := Recover(t[id], tenant, now);
      if id in claimed then Finalized(Claimed(r, now), now, OutcomeFor(r, id, replies), r.attempts + 1) else r
  }

  function Passes(t: Table, tenants: seq<Tenant>, claims: seq<set<Id>>, now: int, replies: map<Id, Reply>): Table
    requires |claims| <= |tenants|
  {
    if claims == [] then t
    else
      var n := |claims| - 1;
      Pass(Passes(t, tenants, claims[..n], now, replies), tenants[n], claims[n], now, replies)
  }

  /** Each tenant's claim takes what is due then, within what the limit leaves. */
  ghost predicate ClaimedInTurn(
      t: Table, tenants: seq<Tenant>, claims: seq<set<Id>>, now: int, limit: int, locked: set<Id>,
      replies: map<Id, Reply>)
    requires |claims| <= |tenants|
  {
    claims == [] ||
    (var n := |claims| - 1;
     ClaimedInTurn(t, tenants, claims[..n], now, limit, locked, replies) &&
     PassClaims(Passes(t, tenants, claims[..n], now, replies), tenants[n], now, locked,
                Max(0, limit - TotalSize(claims[..n])), claims[n]))
  }

  ghost function TotalSize(claims: seq<set<Id>>): nat {
    if claims == [] then 0 else TotalSize(claims[..|claims| - 1]) + |claims[|claims| - 1]|
  }

  ghost predicate PassClaims(t: Table, tenant: Tenant, now: int, locked: set<Id>, room: nat, claimed: set<Id>) {
    var due := DueIds(Recovered(t, tenant, now), tenant, now, locked);
    claimed <= due && |claimed| == Min(room, |due|) &&
    forall c, id | c in claimed && id in due && id !in claimed :: t[c].remindAt <= t[id].remindAt
  }

  function OutcomeFor(r: Reminder, id: Id, replies: map<Id, Reply>): Outcome {
    OutcomeOf(r.channel, if id in replies then replies[id] else Refused)
  }
}
