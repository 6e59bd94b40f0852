/** The token bucket: real-valued tokens refilled by elapsed time and spent by requests. */
module TokenBuckets {
  import opened Common
  import opened Clocks

  datatype Config = Config(rate: real, capacity: real)

  datatype Bucket = Bucket(tokens: real, updatedAt: real)

  /** One pass of the acquire loop: a clock reading and the cost that is asked for. */
  datatype Attempt = Attempt(at: real, cost: real)

  function Least(a: real, b: real): real { if b < a then b else a }

  /** The tokens that accrue between two instants. */
  function Accrued(rate: real, from: real, to: real): real { (to - from) * rate }

  function Refill(c: Config, b: Bucket, now: real): Bucket {
    Bucket(Least(c.capacity, b.tokens + Accrued(c.rate, b.updatedAt, now)), now)
  }

  /** The bucket after one attempt: refilled, and charged when the tokens suffice. */
  function Serve(c: Config, b: Bucket, a: Attempt): Bucket {
    var r := Refill(c, b, a.at);
    if r.tokens >= a.cost then r.(tokens := r.tokens - a.cost) else r
  }

  /** The bucket after the first k attempts of h. */
  function After(c: Config, start: Bucket, h: seq<Attempt>, k: nat): Bucket
    requires k <= |h|
  {
    if k == 0 then start else Serve(c, After(c, start, h, k - 1), h[k - 1])
  }

  /** The tokens on hand when attempt k is decided. */
  function Level(c: Config, start: Bucket, h: seq<Attempt>, k: nat): real
    requires k < |h|
  {
    Refill(c, After(c, start, h, k), h[k].at).tokens
  }

  predicate Granted(c: Config, start: Bucket, h: seq<Attempt>, k: nat)
    requires k < |h|
  {
    Level(c, start, h, k) >= h[k].cost
  }

  /** The total cost granted by the attempts i, ..., j - 1. */
  function Spent(c: Config, start: Bucket, h: seq<Attempt>, i: nat, j: nat): real
    requires i <= j <= |h|
  {
    if i == j then 0.0
    else Spent(c, start, h, i, j - 1) + (if Granted(c, start, h, j - 1) then h[j - 1].cost else 0.0)
  }

  /** The most that attempts i, ..., k may spend if every interval respects burst plus refill. */
  function Allowance(c: Config, h: seq<Attempt>, i: nat, k: nat): real
    requires i <= k < |h|
  {
    c.capacity + Accrued(c.rate, h[i].at, h[k].at)
  }

  ghost predicate Chronological(start: Bucket, h: seq<Attempt>) {
    (forall k | 0 <= k < |h| :: start.updatedAt <= h[k].at) &&
    (forall i, k | 0 <= i < k < |h| :: h[i].at <= h[k].at)
  }

  lemma AfterUpdatedAt(c: Config, start: Bucket, h: seq<Attempt>, k: nat)
    requires k <= |h|
    ensures After(c, start, h, k).updatedAt == if k == 0 then start.updatedAt else h[k - 1].at
  {
  }

  lemma AccruedFacts(rate: real, a: real, b: real, d: real)
    ensures Accrued(rate, a, a) == 0.0
    ensures Accrued(rate, a, b) + Accrued(rate, b, d) == Accrued(rate, a, d)
    ensures rate > 0.0 && a <= b ==> Accrued(rate, a, b) >= 0.0
  {
  }

  /** A decided level in terms of the previous one: what was spent leaves, what elapsed comes in. */
  lemma LevelStep(c: Config, start: Bucket, h: seq<Attempt>, k: nat)
    requires 0 < k < |h|
    ensures Level(c, start, h, k) ==
            Least(c.capacity,
                Level(c, start, h, k - 1) - Spent(c, start, h, k - 1, k) + Accrued(c.rate, h[k - 1].at, h[k].at))
  {
    AfterUpdatedAt(c, start, h, k);
    assert Spent(c, start, h, k - 1, k) ==
           Spent(c, start, h, k - 1, k - 1) + (if Granted(c, start, h, k - 1) then h[k - 1].cost else 0.0);
  }

  /** No interval of any run leaves more tokens than burst plus refill minus what it granted. */
  lemma {:induction false} LevelBound(c: Config, start: Bucket, h: seq<Attempt>, i: nat, k: nat)
    requires i <= k < |h|
    ensures Level(c, start, h, k) <= Allowance(c, h, i, k) - Spent(c, start, h, i, k)
  {
    hide Accrued;
    AccruedFacts(c.rate, h[i].at, h[k].at, h[k].at);
    if i < k {
      LevelBound(c, start, h, i, k - 1);
      LevelStep(c, start, h, k);
      AccruedFacts(c.rate, h[i].at, h[k - 1].at, h[k].at);
    }
  }

  /** The any-interval bound: between two grants at most burst plus refill is granted. */
  lemma IntervalBound(c: Config, start: Bucket, h: seq<Attempt>, i: nat, j: nat)
    requires i <= j < |h|
    requires Granted(c, start, h, j)
    ensures Spent(c, start, h, i, j + 1) <= c.capacity + (h[j].at - h[i].at) * c.rate
  {
    assert Allowance(c, h, i, j) == c.capacity + (h[j].at - h[i].at) * c.rate;
    hide Accrued;
    LevelBound(c, start, h, i, j);
  }

  /** From a full bucket the level is not only bounded by the intervals: one of them is tight. */
  lemma {:induction false} LevelIsTight(c: Config, start: Bucket, h: seq<Attempt>, k: nat) returns (i: nat)
    requires k < |h|
    requires c.rate > 0.0 && start.tokens == c.capacity && Chronological(start, h)
    ensures i <= k
    ensures Level(c, start, h, k) == Allowance(c, h, i, k) - Spent(c, start, h, i, k)
  {
    hide Accrued;
    AccruedFacts(c.rate, start.updatedAt, h[0].at, h[0].at);
    AccruedFacts(c.rate, h[k].at, h[k].at, h[k].at);
    if k == 0 {
      i := 0;
    } else {
      LevelStep(c, start, h, k);
      if Level(c, start, h, k) == c.capacity {
        i := k;
      } else {
        i := LevelIsTight(c, start, h, k - 1);
        AccruedFacts(c.rate, h[i].at, h[k - 1].at, h[k].at);
      }
    }
  }

  /**
   * The bucket is the most permissive limiter that meets the interval bound: from a full
   * bucket an attempt is granted exactly when granting it keeps every interval that ends
   * there within burst plus refill.
   */
  lemma GrantedIffEveryIntervalAllows(c: Config, start: Bucket, h: seq<Attempt>, k: nat)
    requires k < |h|
    requires c.rate > 0.0 && start.tokens == c.capacity && Chronological(start, h)
    ensures Granted(c, start, h, k) <==>
            forall i | 0 <= i <= k :: Spent(c, start, h, i, k) + h[k].cost <= Allowance(c, h, i, k)
  {
    forall i | 0 <= i <= k && Granted(c, start, h, k)
      ensures Spent(c, start, h, i, k) + h[k].cost <= Allowance(c, h, i, k)
    {
      LevelBound(c, start, h, i, k);
    }
    var i := LevelIsTight(c, start, h, k);
    assert Spent(c, start, h, i, k) + Level(c, start, h, k) == Allowance(c, h, i, k);
  }

  /** Non-negative costs keep the tokens between empty and full. */
  lemma {:induction false} TokensInRange(c: Config, start: Bucket, h: seq<Attempt>, k: nat)
    requires k <= |h|
    requires c.rate > 0.0 && 0.0 <= start.tokens <= c.capacity && Chronological(start, h)
    requires forall j | 0 <= j < |h| :: h[j].cost >= 0.0
    ensures 0.0 <= After(c, start, h, k).tokens <= c.capacity
  {
    hide Accrued;
    if k > 0 {
      TokensInRange(c, start, h, k - 1);
      AfterUpdatedAt(c, start, h, k - 1);
      AccruedFacts(c.rate, After(c, start, h, k - 1).updatedAt, h[k - 1].at, h[k - 1].at);
    }
  }

  lemma AfterPrefix(c: Config, start: Bucket, h: seq<Attempt>, g: seq<Attempt>, k: nat)
    requires k <= |h|
    ensures After(c, start, h + g, k) == After(c, start, h, k)
  {
  }

  /** The seconds until the missing tokens have accrued. */
  function Wait(rate: real, missing: real): real
    requires rate > 0.0
  {
    missing / rate
  }

  lemma WaitRefills(rate: real, missing: real, from: real, to: real)
    requires rate > 0.0 && from + Wait(rate, missing) <= to
    ensures Accrued(rate, from, to) >= missing
  {
    assert missing == Wait(rate, missing) * rate;
  }

  /** At the given reading the tokens would suffice. */
  predicate Suffices(c: Config, b: Bucket, cost: real, t: real) {
    Refill(c, b, t).tokens >= cost
  }

  lemma SameSign(x: real, rate: real)
    requires rate > 0.0
    ensures x >= 0.0 <==> x * rate >= 0.0
  {
  }

  lemma AccruesIff(rate: real, missing: real, from: real, to: real)
    requires rate > 0.0
    ensures Accrued(rate, from, to) >= missing <==> from + Wait(rate, missing) <= to
  {
    var w := Wait(rate, missing);
    assert w * rate == missing;
    SameSign(to - from - w, rate);
    assert (to - from - w) * rate == (to - from) * rate - w * rate;
  }

  /** After the wait for its missing tokens the bucket suffices, and at no earlier reading. */
  ghost predicate IsExactWait(c: Config, b: Bucket, cost: real, wait: real) {
    forall t :: Suffices(c, b, cost, t) <==> b.updatedAt + wait <= t
  }

  lemma WaitIsExact(c: Config, b: Bucket, cost: real)
    requires c.rate > 0.0 && b.tokens < cost <= c.capacity
    ensures IsExactWait(c, b, cost, Wait(c.rate, cost - b.tokens))
  {
    hide Accrued, Wait;
    forall t ensures Suffices(c, b, cost, t) <==> b.updatedAt + Wait(c.rate, cost - b.tokens) <= t {
      AccruesIff(c.rate, cost - b.tokens, b.updatedAt, t);
    }
  }

  class TokenBucket {
    const config: Config
    var tokens: real
    var updatedAt: real
    ghost const start: Bucket
    ghost var history: seq<Attempt>

    ghost predicate Valid()
      reads this
    {
      config.rate > 0.0 && start.tokens == config.capacity && Chronological(start, history) &&
      Bucket(tokens, updatedAt) == After(config, start, history, |history|)
    }

    constructor (ratePerSecond: real, capacity: real, now: real)
      requires ratePerSecond > 0.0
      ensures Valid() && history == [] && start == Bucket(capacity, now)
      ensures config == Config(ratePerSecond, capacity)
    {
      config := Config(ratePerSecond, capacity);
      tokens := capacity;
      updatedAt := now;
      start := Bucket(capacity, now);
      history := [];
    }

    /** A rate that is not positive is rejected; the default burst is ten seconds of tokens. */
    static method Create(ratePerMinute: real, burst: Option<real>, clock: Clock)
      returns (bucket: Option<TokenBucket>)
      modifies clock
      ensures bucket.None? <==> ratePerMinute <= 0.0
      ensures bucket.Some? ==>
                var b := bucket.value;
                fresh(b) && b.Valid() && b.history == [] && b.updatedAt == clock.now &&
                b.config.rate == ratePerMinute / 60.0 &&
                b.config.capacity == match burst { case Some(size) => size case None => 10.0 * b.config.rate }
    {
      if ratePerMinute <= 0.0 {
        return None;
      }
      var capacity := if burst.Some? then burst.value else ratePerMinute / 6.0;
      var now := clock.Read();
      var b := new TokenBucket(ratePerMinute / 60.0, capacity, now);
      bucket := Some(b);
    }

    /**
     * A cost above the capacity is an error that changes nothing. Any other call is granted
     * after at most one sleep, and leaves a history in which only its last attempt is granted.
     */
    method Acquire(cost: real, clock: Clock) returns (ok: bool, ghost sleeps: nat, ghost waits: seq<real>)
      requires Valid() && updatedAt <= clock.now
      modifies this, clock
      ensures Valid() && updatedAt <= clock.now
      ensures ok <==> cost <= config.capacity
      ensures !ok ==> history == old(history) && tokens == old(tokens) && clock.now == old(clock.now)
      ensures sleeps <= 1
      ensures ok ==>
                |history| == |old(history)| + sleeps + 1 && old(history) == history[..|old(history)|] &&
                forall k | |old(history)| <= k < |history| ::
                  history[k].cost == cost && (Granted(config, start, history, k) <==> k == |history| - 1)
      ensures |waits| == sleeps && clock.requested == old(clock.requested) + waits
      ensures sleeps == 1 ==>
                ok && |old(history)| < |history| &&
                IsExactWait(config, After(config, start, history, |old(history)| + 1), cost, waits[0])
    {
      hide Accrued, Wait, IsExactWait, After, Level, Granted, Chronological;
      sleeps, waits := 0, [];
      if cost > config.capacity {
        return false, 0, [];
      }
      ghost var stuck := Bucket(tokens, updatedAt);
      while true
        invariant Valid() && updatedAt <= clock.now && sleeps <= 1
        invariant |history| == |old(history)| + sleeps && old(history) == history[..|old(history)|]
        invariant forall k | |old(history)| <= k < |history| ::
                    history[k].cost == cost && !Granted(config, start, history, k)
        invariant sleeps == 1 ==> tokens < cost && updatedAt + Wait(config.rate, cost - tokens) <= clock.now
        invariant |waits| == sleeps && clock.requested == old(clock.requested) + waits
        invariant sleeps == 1 ==>
                    stuck == Bucket(tokens, updatedAt) && waits == [Wait(config.rate, cost - tokens)]
        decreases 1 - sleeps
      {
        var now := clock.Read();
        if sleeps == 1 {
          WaitRefills(config.rate, cost - tokens, updatedAt, now);
          AfterPrefix(config, start, history, [Attempt(now, cost)], |history|);
          WaitIsExact(config, stuck, cost);
        }
        var granted := Pass(cost, now);
        if granted {
          return true, sleeps, waits;
        }
        var wait := Wait(config.rate, cost - tokens);
        clock.Sleep(wait);
        sleeps, waits, stuck := sleeps + 1, waits + [wait], Bucket(tokens, updatedAt);
      }
    }

    /** One pass of the loop: refill to the reading, then spend if the tokens suffice. */
    method Pass(cost: real, now: real) returns (granted: bool)
      requires Valid() && updatedAt <= now
      modifies this
      ensures Valid() && updatedAt == now && history == old(history) + [Attempt(now, cost)]
      ensures granted <==> Granted(config, start, history, |old(history)|)
      ensures forall k | 0 <= k < |old(history)| ::
                Granted(config, start, history, k) == Granted(config, start, old(history), k)
      ensures granted <==> old(Least(config.capacity, tokens + Accrued(config.rate, updatedAt, now))) >= cost
      ensures !granted ==> tokens < cost
    {
      hide Accrued;
      Extend(history, Attempt(now, cost));
      history := history + [Attempt(now, cost)];
      tokens := Least(config.capacity, tokens + Accrued(config.rate, updatedAt, now));
      updatedAt := now;
      granted := tokens >= cost;
      if granted {
        tokens := tokens - cost;
      }
    }

    lemma Extend(h: seq<Attempt>, a: Attempt)
      requires Chronological(start, h)
      requires a.at >= After(config, start, h, |h|).updatedAt
      ensures Chronological(start, h + [a])
      ensures After(config, start, h + [a], |h| + 1) == Serve(config, After(config, start, h, |h|), a)
      ensures Level(config, start, h + [a], |h|) == Refill(config, After(config, start, h, |h|), a.at).tokens
      ensures forall k | 0 <= k < |h| :: Granted(config, start, h + [a], k) == Granted(config, start, h, k)
    {
      AfterUpdatedAt(config, start, h, |h|);
      forall k | 0 <= k <= |h|
        ensures After(config, start, h + [a], k) == After(config, start, h, k)
      {
        AfterPrefix(config, start, h, [a], k);
      }
    }
  }
}
