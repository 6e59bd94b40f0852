/** The sliding-window limiter that several processes share through one locked state file. */
module SharedWindow {
  import opened Common
  import opened Clocks
  import opened TimeStamps

  datatype Json = Number(value: real) | NotANumber

  /** What a process may find in the state file: no JSON, JSON of another shape, or a list. */
  datatype StateFile = Unparseable | NotAList | Entries(items: seq<Json>)

  datatype Settings = Settings(limit: nat, window: real)

  // Reading the file

  function Numbers(items: seq<Json>): seq<real> {
    if items == [] then []
    else if items[0].Number? then [items[0].value] + Numbers(items[1..])
    else Numbers(items[1..])
  }

  function Stamps(file: StateFile): seq<real> {
    if file.Entries? then Numbers(file.items) else []
  }

  function AsJson(stamps: seq<real>): seq<Json> {
    if stamps == [] then [] else [Number(stamps[0])] + AsJson(stamps[1..])
  }

  function Later(stamps: seq<real>, cutoff: real): seq<real> {
    if stamps == [] then []
    else if stamps[0] > cutoff then [stamps[0]] + Later(stamps[1..], cutoff)
    else Later(stamps[1..], cutoff)
  }

  function Insert(x: real, s: seq<real>): seq<real> {
    if s == [] || x <= s[0] then [x] + s else [s[0]] + Insert(x, s[1..])
  }

  function Sorted(s: seq<real>): seq<real> {
    if s == [] then [] else Insert(s[0], Sorted(s[1..]))
  }

  /** The stamps that a reservation at `now` finds inside the window, oldest first. */
  function Live(cfg: Settings, file: StateFile, now: real): seq<real> {
    Sorted(Later(Stamps(file), now - cfg.window))
  }

  // One locked section

  function Greatest(a: real, b: real): real { if a < b then b else a }

  predicate Free(cfg: Settings, file: StateFile, now: real) {
    |Live(cfg, file, now)| < cfg.limit
  }

  function FileAfter(cfg: Settings, file: StateFile, now: real): StateFile {
    if Free(cfg, file, now) then Entries(AsJson(Live(cfg, file, now) + [now])) else file
  }

  function WaitTime(cfg: Settings, file: StateFile, now: real): real
    requires cfg.limit > 0
  {
    if Free(cfg, file, now) then 0.0 else Greatest(0.01, Live(cfg, file, now)[0] + cfg.window - now)
  }

  // Runs: the locked sections of all processes in the order in which they take the lock

  function FileOf(cfg: Settings, file: StateFile, calls: seq<real>, k: nat): StateFile
    requires k <= |calls|
  {
    if k == 0 then file else FileAfter(cfg, FileOf(cfg, file, calls, k - 1), calls[k - 1])
  }

  predicate GrantedAt(cfg: Settings, file: StateFile, calls: seq<real>, k: nat)
    requires k < |calls|
  {
    Free(cfg, FileOf(cfg, file, calls, k), calls[k])
  }

  /** The times of the grants among the first k calls. */
  function Grants(cfg: Settings, file: StateFile, calls: seq<real>, k: nat): seq<real>
    requires k <= |calls|
  {
    if k == 0 then []
    else Grants(cfg, file, calls, k - 1) + (if GrantedAt(cfg, file, calls, k - 1) then [calls[k - 1]] else [])
  }

  lemma {:induction false} CountLater(s: seq<real>, cutoff: real, cut: real)
    requires cutoff <= cut
    ensures CountAfter(Later(s, cutoff), cut) == CountAfter(s, cut)
    ensures |Later(s, cutoff)| == CountAfter(s, cutoff)
  {
    if s != [] {
      CountLater(s[1..], cutoff, cut);
      CountHead(s, cut);
      CountHead(s, cutoff);
      CountConcat([s[0]], Later(s[1..], cutoff), cut);
    }
  }

  lemma {:induction false} CountInsert(x: real, s: seq<real>, cut: real)
    ensures CountAfter(Insert(x, s), cut) == (if x > cut then 1 else 0) + CountAfter(s, cut)
    ensures |Insert(x, s)| == |s| + 1
  {
    CountHead(Insert(x, s), cut);
    if s != [] && x > s[0] {
      CountInsert(x, s[1..], cut);
      CountHead(s, cut);
      assert Insert(x, s)[1..] == Insert(x, s[1..]);
    } else {
      assert Insert(x, s)[1..] == s;
    }
  }

  lemma {:induction false} CountSorted(s: seq<real>, cut: real)
    ensures CountAfter(Sorted(s), cut) == CountAfter(s, cut)
    ensures |Sorted(s)| == |s|
  {
    if s != [] {
      CountSorted(s[1..], cut);
      CountInsert(s[0], Sorted(s[1..]), cut);
      CountHead(s, cut);
    }
  }

  lemma {:induction false} InsertKeepsOrder(x: real, s: seq<real>)
    requires NonDecreasing(s)
    ensures NonDecreasing(Insert(x, s))
    ensures s == [] ==> Insert(x, s) == [x]
    ensures Insert(x, s)[0] == if s != [] && s[0] < x then s[0] else x
  {
    if s != [] && x > s[0] {
      InsertKeepsOrder(x, s[1..]);
    }
  }

  lemma {:induction false} SortedIsOrdered(s: seq<real>)
    ensures NonDecreasing(Sorted(s))
  {
    if s != [] {
      SortedIsOrdered(s[1..]);
      InsertKeepsOrder(s[0], Sorted(s[1..]));
    }
  }

  lemma {:induction false} NumbersOfJson(s: seq<real>)
    ensures Numbers(AsJson(s)) == s
  {
    if s != [] {
      NumbersOfJson(s[1..]);
      assert AsJson(s)[1..] == AsJson(s[1..]);
    }
  }

  /** The locked section sees, and leaves, exactly the stamps inside the window. */
  lemma LiveCounts(cfg: Settings, file: StateFile, now: real, cut: real)
    requires now - cfg.window <= cut
    ensures |Live(cfg, file, now)| == CountAfter(Stamps(file), now - cfg.window)
    ensures CountAfter(Live(cfg, file, now), cut) == CountAfter(Stamps(file), cut)
    ensures Free(cfg, file, now) ==>
              CountAfter(Stamps(FileAfter(cfg, file, now)), cut) ==
              CountAfter(Stamps(file), cut) + (if now > cut then 1 else 0)
  {
    var live := Live(cfg, file, now);
    CountLater(Stamps(file), now - cfg.window, cut);
    CountSorted(Later(Stamps(file), now - cfg.window), cut);
    NumbersOfJson(live + [now]);
    CountConcat(live, [now], cut);
    assert [now][..0] == [];
  }

  // What the file remembers

  /** Whatever the file held at first, it remembers every grant that can still matter. */
  lemma {:induction false} FileRemembersGrants(cfg: Settings, file: StateFile, calls: seq<real>, k: nat, cut: real)
    requires k <= |calls| && NonDecreasing(calls)
    requires k > 0 ==> calls[k - 1] - cfg.window <= cut
    ensures CountAfter(Grants(cfg, file, calls, k), cut) <= CountAfter(Stamps(FileOf(cfg, file, calls, k)), cut)
    ensures Stamps(file) == [] ==>
              CountAfter(Grants(cfg, file, calls, k), cut) == CountAfter(Stamps(FileOf(cfg, file, calls, k)), cut)
  {
    if k > 0 {
      FileRemembersGrants(cfg, file, calls, k - 1, cut);
      var before := FileOf(cfg, file, calls, k - 1);
      LiveCounts(cfg, before, calls[k - 1], cut);
      CountConcat(Grants(cfg, file, calls, k - 1), [calls[k - 1]], cut);
      assert [calls[k - 1]][..0] == [];
      assert Grants(cfg, file, calls, k - 1) + [] == Grants(cfg, file, calls, k - 1);
    }
  }

  lemma {:induction false} GrantsAreCalls(cfg: Settings, file: StateFile, calls: seq<real>, k: nat, j: nat)
    requires k <= |calls| && NonDecreasing(calls) && j < |Grants(cfg, file, calls, k)|
    ensures k > 0 && Grants(cfg, file, calls, k)[j] <= calls[k - 1]
  {
    if k > 0 && j < |Grants(cfg, file, calls, k - 1)| {
      GrantsAreCalls(cfg, file, calls, k - 1, j);
    }
  }

  /** Right after a grant, at most `limit` grants lie in the window that ends there. */
  lemma WindowAfterGrant(cfg: Settings, file: StateFile, calls: seq<real>, k: nat)
    requires 0 < k <= |calls| && NonDecreasing(calls) && cfg.window > 0.0
    requires GrantedAt(cfg, file, calls, k - 1)
    ensures CountAfter(Grants(cfg, file, calls, k), calls[k - 1] - cfg.window) <= cfg.limit
  {
    hide Live;
    hide Stamps;
    hide FileAfter;
    hide FileOf;
    var now := calls[k - 1];
    FileRemembersGrants(cfg, file, calls, k - 1, now - cfg.window);
    LiveCounts(cfg, FileOf(cfg, file, calls, k - 1), now, now - cfg.window);
    CountConcat(Grants(cfg, file, calls, k - 1), [now], now - cfg.window);
    assert [now][..0] == [];
  }

  /**
   * The window bound: for every interleaving of the processes and every initial content of
   * the file, no interval (t - window, t] contains more than `limit` grants.
   */
  lemma {:induction false} WindowBound(cfg: Settings, file: StateFile, calls: seq<real>, k: nat, t: real)
    requires k <= |calls| && NonDecreasing(calls) && cfg.window > 0.0
    ensures CountIn(Grants(cfg, file, calls, k), t - cfg.window, t) <= cfg.limit
  {
    hide Live;
    hide Stamps;
    hide FileAfter;
    hide Free;
    hide FileOf;
    hide CountAfter;
    if k > 0 {
      var granted := Grants(cfg, file, calls, k);
      if !GrantedAt(cfg, file, calls, k - 1) {
        assert granted == Grants(cfg, file, calls, k - 1);
        WindowBound(cfg, file, calls, k - 1, t);
      } else if t < calls[k - 1] {
        WindowBound(cfg, file, calls, k - 1, t);
        assert granted[..|granted| - 1] == Grants(cfg, file, calls, k - 1);
      } else {
        WindowAfterGrant(cfg, file, calls, k);
        CountAfterAntitone(granted, calls[k - 1] - cfg.window, t - cfg.window);
        CountInBelow(granted, t - cfg.window, t);
      }
    }
  }

  /** No needless refusal: over a file without stamps a call is refused iff the window is full. */
  lemma {:induction false} RefusedIffWindowFull(cfg: Settings, file: StateFile, calls: seq<real>, k: nat)
    requires k < |calls| && NonDecreasing(calls) && cfg.window > 0.0 && Stamps(file) == []
    ensures GrantedAt(cfg, file, calls, k) <==>
            CountIn(Grants(cfg, file, calls, k), calls[k] - cfg.window, calls[k]) < cfg.limit
  {
    hide Live;
    hide Stamps;
    hide FileAfter;
    hide FileOf;
    hide CountAfter;
    hide CountIn;
    hide Grants;
    var now := calls[k];
    var granted := Grants(cfg, file, calls, k);
    FileRemembersGrants(cfg, file, calls, k, now - cfg.window);
    LiveCounts(cfg, FileOf(cfg, file, calls, k), now, now - cfg.window);
    forall j | 0 <= j < |granted| ensures granted[j] <= now {
      GrantsAreCalls(cfg, file, calls, k, j);
    }
    CountInUpTo(granted, now - cfg.window, now);
  }

  // The wait a refused call is told

  /** A refused caller cannot succeed before the oldest stamp leaves the window. */
  lemma NoEarlierGrant(cfg: Settings, file: StateFile, now: real, later: real)
    requires cfg.limit > 0 && !Free(cfg, file, now) && now <= later
    requires later < Live(cfg, file, now)[0] + cfg.window
    ensures !Free(cfg, file, later)
  {
    var live := Live(cfg, file, now);
    SortedIsOrdered(Later(Stamps(file), now - cfg.window));
    LiveCounts(cfg, file, now, later - cfg.window);
    LiveCounts(cfg, file, later, later - cfg.window);
    CountAll(live, later - cfg.window);
  }

  /**
   * The exact condition: if nobody reserves meanwhile, a refused call is granted at a later time if
   * and only if the limit-th latest of the stamps that it saw has left the window by then.
   */
  lemma GrantedLaterIff(cfg: Settings, file: StateFile, now: real, later: real)
    requires cfg.limit > 0 && !Free(cfg, file, now) && now <= later
    ensures var live := Live(cfg, file, now);
            Free(cfg, file, later) <==> live[|live| - cfg.limit] <= later - cfg.window
  {
    var live := Live(cfg, file, now);
    SortedIsOrdered(Later(Stamps(file), now - cfg.window));
    LiveCounts(cfg, file, now, later - cfg.window);
    LiveCounts(cfg, file, later, later - cfg.window);
    FewerAfterIff(live, later - cfg.window, cfg.limit);
  }

  /** So one returned wait is enough exactly when that stamp leaves with the oldest one, or within the least wait. */
  lemma OneWaitSufficesIff(cfg: Settings, file: StateFile, now: real)
    requires cfg.limit > 0 && !Free(cfg, file, now)
    ensures var live := Live(cfg, file, now);
            Free(cfg, file, now + WaitTime(cfg, file, now)) <==>
            live[|live| - cfg.limit] <= Greatest(live[0], now + 0.01 - cfg.window)
  {
    GrantedLaterIff(cfg, file, now, now + WaitTime(cfg, file, now));
  }

  /** If nobody reserves meanwhile, a retry after the returned wait sees strictly fewer stamps. */
  lemma RetryAfterWait(cfg: Settings, file: StateFile, now: real, later: real)
    requires cfg.limit > 0 && cfg.window > 0.0 && !Free(cfg, file, now)
    requires now + WaitTime(cfg, file, now) <= later
    ensures |Live(cfg, file, later)| < |Live(cfg, file, now)|
    ensures |Live(cfg, file, now)| == cfg.limit ==> Free(cfg, file, later)
  {
    var live := Live(cfg, file, now);
    LiveCounts(cfg, file, now, later - cfg.window);
    LiveCounts(cfg, file, later, later - cfg.window);
    CountAtMost(live, later - cfg.window);
  }

  /** Processes with one limit never overfill the file. */
  lemma {:induction false} NeverOverfull(cfg: Settings, file: StateFile, calls: seq<real>, k: nat, now: real)
    requires k <= |calls| && NonDecreasing(calls) && cfg.window > 0.0
    requires CountAfter(Stamps(file), (if k == 0 then now else calls[0]) - cfg.window) <= cfg.limit
    requires k > 0 ==> calls[k - 1] <= now
    ensures |Live(cfg, FileOf(cfg, file, calls, k), now)| <= cfg.limit
  {
    hide Live;
    hide Stamps;
    LiveCounts(cfg, FileOf(cfg, file, calls, k), now, now - cfg.window);
    if k > 0 {
      var before := FileOf(cfg, file, calls, k - 1);
      NeverOverfull(cfg, file, calls, k - 1, calls[k - 1]);
      LiveCounts(cfg, before, calls[k - 1], now - cfg.window);
      CountAfterAntitone(Live(cfg, before, calls[k - 1]), calls[k - 1] - cfg.window, now - cfg.window);
      CountAfterAntitone(Stamps(before), calls[k - 1] - cfg.window, now - cfg.window);
    }
  }

  /**
   * With one limit, in every run over a file that was not overfull at first, a refused call is
   * granted after the wait that it was told, if nobody reserves meanwhile.
   */
  lemma OneLimitNeedsOneWait(cfg: Settings, file: StateFile, calls: seq<real>, k: nat, later: real)
    requires k < |calls| && NonDecreasing(calls) && cfg.window > 0.0 && cfg.limit > 0
    requires CountAfter(Stamps(file), calls[0] - cfg.window) <= cfg.limit
    requires !GrantedAt(cfg, file, calls, k)
    requires calls[k] + WaitTime(cfg, FileOf(cfg, file, calls, k), calls[k]) <= later
    ensures Free(cfg, FileOf(cfg, file, calls, k + 1), later)
  {
    hide Live, Stamps, WaitTime;
    NeverOverfull(cfg, file, calls, k, calls[k]);
    RetryAfterWait(cfg, FileOf(cfg, file, calls, k), calls[k], later);
  }

  /** Two processes with different limits overfill it: the smaller one is told a wait that is too short. */
  lemma MixedLimitsNeedMoreWaits()
    ensures var large := Settings(2, 60.0);
            var small := Settings(1, 60.0);
            var file := FileAfter(large, FileAfter(large, Unparseable, 0.0), 10.0);
            !Free(small, file, 20.0) && !Free(small, file, 20.0 + WaitTime(small, file, 20.0))
  {
    var large, small := Settings(2, 60.0), Settings(1, 60.0);
    var first := FileAfter(large, Unparseable, 0.0);
    assert Live(large, Unparseable, 0.0) == [];
    assert AsJson([0.0]) == [Number(0.0)];
    assert [] + [0.0] == [0.0];
    assert first == Entries([Number(0.0)]);
    assert Numbers([Number(0.0)]) == [0.0];
    assert Later([0.0], -50.0) == [0.0];
    assert Live(large, first, 10.0) == [0.0];
    var file := FileAfter(large, first, 10.0);
    assert AsJson([0.0, 10.0]) == [Number(0.0)] + AsJson([10.0]) == [Number(0.0), Number(10.0)];
    NumbersOfJson([0.0, 10.0]);
    assert Stamps(file) == [0.0, 10.0];
    assert [0.0, 10.0][1..] == [10.0];
    assert Later([10.0], -40.0) == [10.0] && Later([10.0], 0.0) == [10.0];
    assert Later([0.0, 10.0], -40.0) == [0.0, 10.0] && Later([0.0, 10.0], 0.0) == [10.0];
    assert Sorted([10.0]) == [10.0];
    assert Sorted([0.0, 10.0]) == Insert(0.0, [10.0]) == [0.0, 10.0];
    assert WaitTime(small, file, 20.0) == 40.0;
  }

  // The limiter object of one process

  class SharedFile {
    var content: StateFile

    constructor (content: StateFile)
      ensures this.content == content
    {
      this.content := content;
    }
  }

  class SharedSlidingWindowLimiter {
    const settings: Settings
    const state: SharedFile

    constructor (settings: Settings, state: SharedFile)
      ensures this.settings == settings && this.state == state
    {
      this.settings := settings;
      this.state := state;
    }

    static method Create(requestsPerMinute: int, window: real, state: SharedFile)
      returns (limiter: Option<SharedSlidingWindowLimiter>)
      ensures limiter.None? <==> requestsPerMinute <= 0 || window <= 0.0
      ensures limiter.Some? ==>
                limiter.value.settings == Settings(requestsPerMinute, window) && limiter.value.state == state
    {
      if requestsPerMinute <= 0 || window <= 0.0 {
        return None;
      }
      var created := new SharedSlidingWindowLimiter(Settings(requestsPerMinute, window), state);
      limiter := Some(created);
    }

    /** One section under the file lock. */
    method ReserveOrWait(now: real) returns (wait: real)
      requires settings.limit > 0
      modifies state
      ensures state.content == FileAfter(settings, old(state.content), now)
      ensures wait == WaitTime(settings, old(state.content), now)
      ensures 0.0 <= wait && (wait == 0.0 <==> Free(settings, old(state.content), now))
    {
      var timestamps := Live(settings, state.content, now);
      if |timestamps| < settings.limit {
        timestamps := timestamps + [now];
        state.content := Entries(AsJson(timestamps));
        return 0.0;
      }
      wait := Greatest(0.01, timestamps[0] + settings.window - now);
    }

    /**
     * The acquire loop among other processes with the same settings: before its r-th section,
     * `rivals[r]` of their sections take the lock, and none after that. Any cost but 1 is an
     * error. Otherwise all the sections together are a run in which the last one is the grant; over a
     * file that was not overfull the caller sleeps at most once more than it is disturbed, and
     * alone never more often than stamps stand in its way. Each time it sleeps as long as its section told it.
     */
    method Acquire(cost: real, clock: Clock, rivals: seq<nat>)
      returns (ok: bool, sleeps: nat, ghost calls: seq<real>, ghost own: seq<nat>)
      requires settings.limit > 0 && settings.window > 0.0
      modifies clock, state
      ensures ok <==> cost == 1.0
      ensures !ok ==> state.content == old(state.content) && calls == [] && sleeps == 0
      ensures ok ==> calls != [] && calls[|calls| - 1] == clock.now
      ensures ok ==> RunSince(settings, old(state.content), old(clock.now), calls, state.content, clock.now)
      ensures ok ==> GrantedAt(settings, old(state.content), calls, |calls| - 1)
      ensures |clock.requested| == |old(clock.requested)| + sleeps && old(clock.requested) <= clock.requested
      ensures |own| == sleeps &&
              WaitsAsTold(settings, old(state.content), calls, own, clock.requested[|old(clock.requested)|..])
      ensures ok && |Live(settings, old(state.content), old(clock.now))| <= settings.limit ==>
              sleeps <= Max(1, |rivals|)
      ensures ok && rivals == [] && sleeps > 0 ==>
                sleeps + settings.limit <= |Live(settings, old(state.content), old(clock.now))| + 1
    {
      hide *;
      calls, sleeps, own := [], 0, [];
      ghost var file, start, waits: seq<real> := state.content, clock.now, [];
      NoWaits(settings, file, calls);
      if cost != 1.0 {
        assert clock.requested[|old(clock.requested)|..] == [];
        return false, 0, [], [];
      }
      NoCalls(settings, file, start, |rivals|);
      while true
        invariant RunSince(settings, file, start, calls, state.content, clock.now)
        invariant Paced(settings, file, start, state.content, clock.now, |rivals|, sleeps)
        invariant |own| == |waits| == sleeps && clock.requested == old(clock.requested) + waits
        invariant WaitsAsTold(settings, file, calls, own, waits)
        decreases if sleeps < |rivals| then |rivals| - sleeps else 0, |Live(settings, state.content, clock.now)|
      {
        ghost var first, arrival := state.content, clock.now;
        if sleeps < |rivals| {
          ghost var more := Disturb(rivals[sleeps], clock, file, start, calls);
          WaitsStand(settings, file, calls, more, own, waits);
          calls := more;
        }
        ghost var content, done, reached := state.content, calls, clock.now;
        var now := clock.Read();
        var wait := ReserveOrWait(now);
        OneMoreCall(settings, file, start, calls, content, reached, now, state.content);
        WaitsStand(settings, file, calls, calls + [now], own, waits);
        calls := calls + [now];
        if wait <= 0.0 {
          PacedBounds(settings, file, start, first, arrival, |rivals|, sleeps);
          return true, sleeps, calls, own;
        }
        OneMoreWait(settings, file, start, done, content, now, own, waits);
        own, waits := own + [|done|], waits + [wait];
        clock.Sleep(wait);
        RunGoesOn(settings, file, start, calls, state.content, now, clock.now);
        PacedAfterSleep(settings, file, start, done, first, arrival, content, now, clock.now, |rivals|, sleeps);
        sleeps := sleeps + 1;
      }
    }

    /** Sections of other processes. */
    method Disturb(count: nat, clock: Clock, ghost file: StateFile, ghost start: real, ghost calls: seq<real>)
      returns (ghost more: seq<real>)
      requires settings.limit > 0 && RunSince(settings, file, start, calls, state.content, clock.now)
      modifies clock, state
      ensures old(clock.now) <= clock.now && RunSince(settings, file, start, more, state.content, clock.now)
      ensures calls <= more && clock.requested == old(clock.requested)
    {
      hide *;
      more := calls;
      for i := 0 to count
        invariant old(clock.now) <= clock.now && RunSince(settings, file, start, more, state.content, clock.now)
        invariant calls <= more && clock.requested == old(clock.requested)
      {
        ghost var content, reached := state.content, clock.now;
        var now := clock.Read();
        var wait := ReserveOrWait(now);
        OneMoreCall(settings, file, start, more, content, reached, now, state.content);
        more := more + [now];
      }
    }
  }

  /** The calls since `start`, in order, have brought the file to its present content. */
  ghost predicate RunSince(
      cfg: Settings, file: StateFile, start: real, calls: seq<real>, content: StateFile, now: real)
  {
    NonDecreasing(calls) && (forall i | 0 <= i < |calls| :: start <= calls[i] <= now) && start <= now &&
    content == FileOf(cfg, file, calls, |calls|)
  }

  /** The i-th sleep is as long as the refused section of index own[i] told. */
  ghost predicate WaitsAsTold(cfg: Settings, file: StateFile, calls: seq<real>, own: seq<nat>, waits: seq<real>) {
    |own| == |waits| && forall i | 0 <= i < |own| :: IsTold(cfg, file, calls, own[i], waits[i])
  }

  ghost predicate IsTold(cfg: Settings, file: StateFile, calls: seq<real>, c: nat, wait: real) {
    cfg.limit > 0 && c < |calls| && !GrantedAt(cfg, file, calls, c) &&
    wait == WaitTime(cfg, FileOf(cfg, file, calls, c), calls[c])
  }

  lemma NoWaits(cfg: Settings, file: StateFile, calls: seq<real>)
    ensures WaitsAsTold(cfg, file, calls, [], [])
  {
  }

  lemma WaitsStand(
      cfg: Settings, file: StateFile, calls: seq<real>, more: seq<real>, own: seq<nat>, waits: seq<real>)
    requires WaitsAsTold(cfg, file, calls, own, waits) && calls <= more
    ensures WaitsAsTold(cfg, file, more, own, waits)
  {
    hide WaitTime, Free, FileOf;
    forall i | 0 <= i < |own| ensures IsTold(cfg, file, more, own[i], waits[i]) {
      assert IsTold(cfg, file, calls, own[i], waits[i]);
      assert more == calls + more[|calls|..];
      SamePrefix(cfg, file, calls, more[|calls|..], own[i]);
    }
  }

  lemma OneMoreWait(
      cfg: Settings, file: StateFile, start: real, calls: seq<real>, content: StateFile, now: real, own: seq<nat>,
      waits: seq<real>)
    requires cfg.limit > 0 && RunSince(cfg, file, start, calls, content, now) && !Free(cfg, content, now)
    requires WaitsAsTold(cfg, file, calls + [now], own, waits)
    ensures WaitsAsTold(cfg, file, calls + [now], own + [|calls|], waits + [WaitTime(cfg, content, now)])
  {
    hide WaitTime, Free, FileOf;
    SamePrefix(cfg, file, calls, [now], |calls|);
    assert IsTold(cfg, file, calls + [now], |calls|, WaitTime(cfg, content, now));
    hide IsTold;
  }

  lemma NoCalls(cfg: Settings, file: StateFile, start: real, rounds: nat)
    ensures RunSince(cfg, file, start, [], file, start) && Paced(cfg, file, start, file, start, rounds, 0)
  {
  }

  lemma OneMoreCall(cfg: Settings, file: StateFile, start: real, calls: seq<real>, content: StateFile, earlier: real,
                    now: real, after: StateFile)
    requires RunSince(cfg, file, start, calls, content, earlier) && earlier <= now &&
             after == FileAfter(cfg, content, now)
    ensures RunSince(cfg, file, start, calls + [now], after, now) && RunSince(cfg, file, start, calls, content, now)
    ensures GrantedAt(cfg, file, calls + [now], |calls|) <==> Free(cfg, content, now)
    ensures !Free(cfg, content, now) ==> after == content
  {
    hide Live;
    SamePrefix(cfg, file, calls, [now], |calls|);
  }

  lemma {:induction false} SamePrefix(cfg: Settings, file: StateFile, calls: seq<real>, more: seq<real>, k: nat)
    requires k <= |calls|
    ensures FileOf(cfg, file, calls + more, k) == FileOf(cfg, file, calls, k)
  {
    if k > 0 {
      SamePrefix(cfg, file, calls, more, k - 1);
    }
  }

  lemma RunGoesOn(
      cfg: Settings, file: StateFile, start: real, calls: seq<real>, content: StateFile, now: real, later: real)
    requires RunSince(cfg, file, start, calls, content, now) && now <= later
    ensures RunSince(cfg, file, start, calls, content, later)
  {
  }

  /** How far the sleeps have got: after the last disturbance, and if there is none at all. */
  ghost predicate Paced(
    cfg: Settings, file: StateFile, start: real, content: StateFile, now: real, rounds: nat, sleeps: nat)
  {
    (|Live(cfg, file, start)| <= cfg.limit ==>
       sleeps <= Max(1, rounds) && (sleeps > 0 && sleeps >= rounds ==> Free(cfg, content, now))) &&
    (rounds == 0 ==>
       content == file && sleeps + |Live(cfg, content, now)| <= |Live(cfg, file, start)| &&
       (sleeps > 0 ==> sleeps + cfg.limit <= |Live(cfg, file, start)| + 1))
  }

  lemma PacedBounds(
      cfg: Settings, file: StateFile, start: real, content: StateFile, now: real, rounds: nat, sleeps: nat)
    requires Paced(cfg, file, start, content, now, rounds, sleeps)
    ensures |Live(cfg, file, start)| <= cfg.limit ==> sleeps <= Max(1, rounds)
    ensures rounds == 0 && sleeps > 0 ==> sleeps + cfg.limit <= |Live(cfg, file, start)| + 1
  {
  }

  lemma PacedAfterSleep(cfg: Settings, file: StateFile, start: real, calls: seq<real>, first: StateFile, arrival: real,
                        content: StateFile, now: real, later: real, rounds: nat, sleeps: nat)
    requires cfg.limit > 0 && cfg.window > 0.0 && arrival <= now
    requires Paced(cfg, file, start, first, arrival, rounds, sleeps) && (sleeps >= rounds ==> content == first)
    requires RunSince(cfg, file, start, calls, content, now)
    requires !Free(cfg, content, now) && now + WaitTime(cfg, content, now) <= later
    ensures Paced(cfg, file, start, content, later, rounds, sleeps + 1)
    ensures sleeps >= rounds ==> |Live(cfg, content, later)| < |Live(cfg, first, arrival)|
  {
    hide Live, WaitTime, FileOf, Stamps;
    RetryAfterWait(cfg, content, now, later);
    LiveShrinks(cfg, first, arrival, now);
    if |Live(cfg, file, start)| <= cfg.limit {
      FitsSince(cfg, file, start, calls, content, now);
    }
  }

  /** A file that was not overfull when a run began is not overfull later on. */
  lemma FitsSince(cfg: Settings, file: StateFile, start: real, calls: seq<real>, content: StateFile, now: real)
    requires RunSince(cfg, file, start, calls, content, now) && cfg.window > 0.0 &&
             |Live(cfg, file, start)| <= cfg.limit
    ensures |Live(cfg, content, now)| <= cfg.limit
  {
    hide Live, Stamps;
    var next := if calls == [] then now else calls[0];
    LiveCounts(cfg, file, start, start - cfg.window);
    CountAfterAntitone(Stamps(file), start - cfg.window, next - cfg.window);
    NeverOverfull(cfg, file, calls, |calls|, now);
  }

  lemma LiveShrinks(cfg: Settings, file: StateFile, now: real, later: real)
    requires now <= later
    ensures |Live(cfg, file, later)| <= |Live(cfg, file, now)|
  {
    LiveCounts(cfg, file, now, now - cfg.window);
    LiveCounts(cfg, file, later, later - cfg.window);
    CountAfterAntitone(Stamps(file), now - cfg.window, later - cfg.window);
  }
}
