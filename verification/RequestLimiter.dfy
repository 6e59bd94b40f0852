/** The in-memory request limiter: one deque of stamps per key, pruned, evicted and charged together. */
module RequestLimiter {
  import opened Common
  import opened TimeStamps

  /** The prefixed strings that name a caller, and the key that all strangers to a full table share. */
  datatype Key = Ip(host: string) | Credential(digest: string) | Overflow

  type Table = map<Key, seq<real>>

  const PERIOD: real := 60.0

  datatype Limits = Limits(perMinute: nat, maxKeys: nat)

  datatype Decision = Decision(blocked: bool, retryAfter: int, remaining: nat)

  /** The table after the per-key loop, with the distinct keys that the request is charged to. */
  datatype Prepared = Prepared(table: Table, effective: seq<Key>)

  function Window(t: Table, k: Key): seq<real> {
    if k in t then t[k] else []
  }

  /** How many windows the table holds besides Overflow. */
  function Named(t: Table): nat {
    |t.Keys - {Overflow}|
  }

  function Last(w: seq<real>): real
    requires w != []
  {
    w[|w| - 1]
  }

  /** Drops stamps from the left while they are at or before the cutoff. */
  function Drop(w: seq<real>, cutoff: real): seq<real> {
    if w != [] && w[0] <= cutoff then Drop(w[1..], cutoff) else w
  }

  // Pruning

  function Expire(t: Table, cutoff: real): Table {
    map k | k in t && t[k] != [] && Last(t[k]) > cutoff :: t[k]
  }

  /** p holds what pruning may leave of t: ties between equally old keys may fall either way. */
  ghost predicate Prunes(t: Table, cutoff: real, maxKeys: nat, p: Table) {
    var live := Expire(t, cutoff);
    (forall k | k in p :: k in live && p[k] == live[k]) &&
    |p| == (if |live| <= maxKeys then |live| else maxKeys) &&
    (forall kept, gone | kept in p && gone in live && gone !in p :: Last(live[gone]) <= Last(live[kept]))
  }

  // The request

  function EffectiveKey(t: Table, key: Key, maxKeys: nat): Key {
    if key in t || |t| < maxKeys then key else Overflow
  }

  function Touch(p: Prepared, key: Key, cutoff: real, maxKeys: nat): Prepared {
    var e := EffectiveKey(p.table, key, maxKeys);
    Prepared(p.table[e := Drop(Window(p.table, e), cutoff)],
             if e in p.effective then p.effective else p.effective + [e])
  }

  /** The first n keys of the request, handled one after the other. */
  function TouchFirst(t: Table, keys: seq<Key>, n: nat, cutoff: real, maxKeys: nat): Prepared
    requires n <= |keys|
  {
    if n == 0 then Prepared(t, []) else Touch(TouchFirst(t, keys, n - 1, cutoff, maxKeys), keys[n - 1], cutoff, maxKeys)
  }

  function TouchAll(t: Table, keys: seq<Key>, cutoff: real, maxKeys: nat): Prepared {
    TouchFirst(t, keys, |keys|, cutoff, maxKeys)
  }

  ghost predicate Full(t: Table, keys: seq<Key>, limit: nat) {
    exists k :: k in keys && |Window(t, k)| >= limit
  }

  function Charge(t: Table, keys: seq<Key>, now: real): Table {
    map k | k in t :: if k in keys then t[k] + [now] else t[k]
  }

  /** One request: prune, handle the keys, then charge all of the effective keys or none. */
  ghost predicate Serves(t: Table, keys: seq<Key>, now: real, l: Limits, t': Table, blocked: bool) {
    exists p :: Prunes(t, now - PERIOD, l.maxKeys, p) && Settles(p, keys, now, l, t', blocked)
  }

  ghost predicate Settles(p: Table, keys: seq<Key>, now: real, l: Limits, t': Table, blocked: bool) {
    var q := TouchAll(p, keys, now - PERIOD, l.maxKeys);
    (blocked <==> Full(q.table, q.effective, l.perMinute)) &&
    t' == if blocked then q.table else Charge(q.table, q.effective, now)
  }

  // What the per-key loop does, whatever the table

  lemma {:induction false} DropFacts(w: seq<real>, cutoff: real, cut: real)
    requires cutoff <= cut
    ensures Drop(Drop(w, cutoff), cutoff) == Drop(w, cutoff)
    ensures CountAfter(Drop(w, cutoff), cut) == CountAfter(w, cut)
    ensures NonDecreasing(w) ==> NonDecreasing(Drop(w, cutoff)) && |Drop(w, cutoff)| == CountAfter(w, cutoff)
    ensures forall x | x in Drop(w, cutoff) :: x in w
  {
    if w != [] && w[0] <= cutoff {
      DropFacts(w[1..], cutoff, cut);
      CountHead(w, cut);
      CountHead(w, cutoff);
    } else if NonDecreasing(w) {
      CountAll(w, cutoff);
    }
  }

  /** One key: its effective key becomes one of the charged, and only that window is trimmed. */
  lemma TouchStep(p: Prepared, key: Key, cutoff: real, maxKeys: nat, k: Key)
    ensures var q := Touch(p, key, cutoff, maxKeys);
            var e := EffectiveKey(p.table, key, maxKeys);
            (k in q.effective <==> k in p.effective || k == e) &&
            (k in q.table <==> k in p.table || k == e) &&
            Window(q.table, k) == (if k == e then Drop(Window(p.table, k), cutoff) else Window(p.table, k)) &&
            q.effective != [] && (NoRepeats(p.effective) ==> NoRepeats(q.effective))
  {
    hide Drop;
  }

  lemma TouchStepSize(p: Prepared, key: Key, cutoff: real, maxKeys: nat)
    requires Named(p.table) <= maxKeys
    ensures Named(Touch(p, key, cutoff, maxKeys).table) <= maxKeys
  {
    hide Drop, Window;
    var e := EffectiveKey(p.table, key, maxKeys);
    assert Touch(p, key, cutoff, maxKeys).table.Keys == p.table.Keys + {e};
    assert |p.table.Keys| == |p.table|;
    AddedKeySize(p.table.Keys, e, maxKeys);
  }

  lemma AddedKeySize(keys: set<Key>, e: Key, maxKeys: nat)
    requires |keys - {Overflow}| <= maxKeys && (e in keys || |keys| < maxKeys || e == Overflow)
    ensures |(keys + {e}) - {Overflow}| <= maxKeys
  {
    if e == Overflow || e in keys {
      assert (keys + {e}) - {Overflow} == keys - {Overflow};
    } else {
      SubsetSize((keys + {e}) - {Overflow}, keys + {e});
    }
  }

  /** A touched window loses its expired stamps; every other window stays as it was. */
  lemma {:induction false} TouchedWindow(t: Table, keys: seq<Key>, n: nat, cutoff: real, maxKeys: nat, k: Key)
    requires n <= |keys|
    ensures var q := TouchFirst(t, keys, n, cutoff, maxKeys);
            (k in q.table <==> k in t || k in q.effective) &&
            Window(q.table, k) == (if k in q.effective then Drop(Window(t, k), cutoff) else Window(t, k)) &&
            (n > 0 ==> q.effective != []) && NoRepeats(q.effective)
  {
    hide *;
    if n > 0 {
      TouchedWindow(t, keys, n - 1, cutoff, maxKeys, k);
      DropFacts(Window(t, k), cutoff, cutoff);
      TouchStep(TouchFirst(t, keys, n - 1, cutoff, maxKeys), keys[n - 1], cutoff, maxKeys, k);
      TouchOneMore(t, keys, n, cutoff, maxKeys);
    } else {
      TouchNone(t, keys, cutoff, maxKeys);
    }
  }

  lemma TouchOneMore(t: Table, keys: seq<Key>, n: nat, cutoff: real, maxKeys: nat)
    requires 0 < n <= |keys|
    ensures TouchFirst(t, keys, n, cutoff, maxKeys) ==
            Touch(TouchFirst(t, keys, n - 1, cutoff, maxKeys), keys[n - 1], cutoff, maxKeys)
  {
    hide Touch;
  }

  lemma TouchNone(t: Table, keys: seq<Key>, cutoff: real, maxKeys: nat)
    ensures TouchFirst(t, keys, 0, cutoff, maxKeys) == Prepared(t, []) && NoRepeats<Key>([])
  {
  }

  /** Besides Overflow the loop never opens more windows than the table may hold. */
  lemma {:induction false} TouchedSize(t: Table, keys: seq<Key>, n: nat, cutoff: real, maxKeys: nat)
    requires n <= |keys| && Named(t) <= maxKeys
    ensures Named(TouchFirst(t, keys, n, cutoff, maxKeys).table) <= maxKeys
  {
    hide *;
    if n > 0 {
      TouchOneMore(t, keys, n, cutoff, maxKeys);
      TouchedSize(t, keys, n - 1, cutoff, maxKeys);
      TouchStepSize(TouchFirst(t, keys, n - 1, cutoff, maxKeys), keys[n - 1], cutoff, maxKeys);
    } else {
      TouchNone(t, keys, cutoff, maxKeys);
    }
  }

  lemma {:induction false} SubsetSize<T>(a: set<T>, b: set<T>)
    requires a <= b
    ensures |a| <= |b|
  {
    if a != {} {
      var x :| x in a;
      SubsetSize(a - {x}, b - {x});
    }
  }

  /** All or nothing: a refused request charges no key, an admitted one each effective key once. */
  lemma ChargesAllOrNothing(p: Table, keys: seq<Key>, now: real, l: Limits, t': Table, blocked: bool, k: Key)
    requires Settles(p, keys, now, l, t', blocked)
    ensures var q := TouchAll(p, keys, now - PERIOD, l.maxKeys);
            NoRepeats(q.effective) &&
            Window(t', k) ==
            (if k in q.effective then Drop(Window(p, k), now - PERIOD) else Window(p, k)) +
            (if k in q.effective && !blocked then [now] else [])
  {
    var q := TouchAll(p, keys, now - PERIOD, l.maxKeys);
    TouchedWindow(p, keys, |keys|, now - PERIOD, l.maxKeys, k);
    hide TouchAll, Drop;
  }

  lemma SettledKeys(p: Table, keys: seq<Key>, now: real, l: Limits, t': Table, blocked: bool)
    requires Settles(p, keys, now, l, t', blocked) && Named(p) <= l.maxKeys
    ensures Named(t') <= l.maxKeys
  {
    TouchedSize(p, keys, |keys|, now - PERIOD, l.maxKeys);
    assert t'.Keys == TouchAll(p, keys, now - PERIOD, l.maxKeys).table.Keys;
  }

  // Runs

  datatype Request = Request(keys: seq<Key>, at: real)

  /** A run of the limiter: the tables between the requests, and whether each was refused. */
  datatype Run = Run(requests: seq<Request>, tables: seq<Table>, blocked: seq<bool>)

  ghost predicate IsRun(r: Run, l: Limits) {
    |r.tables| == |r.requests| + 1 && |r.blocked| == |r.requests| && r.tables[0] == map[] &&
    (forall i | 0 <= i < |r.requests| :: StepServes(r, l, i)) &&
    (forall i, j | 0 <= i < j < |r.requests| :: r.requests[i].at <= r.requests[j].at)
  }

  ghost predicate StepServes(r: Run, l: Limits, i: nat)
    requires i < |r.requests| && |r.tables| == |r.requests| + 1 && |r.blocked| == |r.requests|
  {
    Serves(r.tables[i], r.requests[i].keys, r.requests[i].at, l, r.tables[i + 1], r.blocked[i])
  }

  lemma ServedVia(r: Run, l: Limits, n: nat) returns (p: Table)
    requires IsRun(r, l) && n < |r.requests|
    ensures Prunes(r.tables[n], r.requests[n].at - PERIOD, l.maxKeys, p)
    ensures Settles(p, r.requests[n].keys, r.requests[n].at, l, r.tables[n + 1], r.blocked[n])
    ensures |p| <= l.maxKeys && Named(p) <= l.maxKeys
  {
    hide Prunes, Settles;
    assert StepServes(r, l, n);
    p :| Prunes(r.tables[n], r.requests[n].at - PERIOD, l.maxKeys, p) &&
         Settles(p, r.requests[n].keys, r.requests[n].at, l, r.tables[n + 1], r.blocked[n]);
    PrunedSize(r.tables[n], r.requests[n].at - PERIOD, l.maxKeys, p);
  }

  /** The full log: the times of the admitted requests, among the first n, that carried the key. */
  function Admitted(r: Run, key: Key, n: nat): seq<real>
    requires n <= |r.requests| && n <= |r.blocked|
  {
    if n == 0 then []
    else Admitted(r, key, n - 1) +
         (if key in r.requests[n - 1].keys && !r.blocked[n - 1] then [r.requests[n - 1].at] else [])
  }

  lemma {:induction false} PrunedSize(t: Table, cutoff: real, maxKeys: nat, p: Table)
    requires Prunes(t, cutoff, maxKeys, p)
    ensures |p| <= maxKeys && Named(p) <= maxKeys
  {
    assert |p.Keys| == |p|;
    SubsetSize(p.Keys - {Overflow}, p.Keys);
  }

  lemma StartsEmpty(r: Run, l: Limits)
    requires IsRun(r, l)
    ensures r.tables[0] == map[]
  {
  }

  /** In every run the table holds at most one key more than `maxKeys`, and that key is Overflow. */
  lemma TableIsBounded(r: Run, l: Limits, n: nat)
    requires IsRun(r, l) && n <= |r.requests| && |r.tables| == |r.requests| + 1 && |r.blocked| == |r.requests|
    ensures Named(r.tables[n]) <= l.maxKeys
    ensures |r.tables[n]| <= l.maxKeys + 1
  {
    hide IsRun, Prunes, Settles;
    var t := r.tables[n];
    if n > 0 {
      var p := ServedVia(r, l, n - 1);
      SettledKeys(p, r.requests[n - 1].keys, r.requests[n - 1].at, l, t, r.blocked[n - 1]);
    } else {
      StartsEmpty(r, l);
      assert t.Keys - {Overflow} == {};
    }
    assert |t.Keys| == |t|;
    assert t.Keys <= (t.Keys - {Overflow}) + {Overflow};
    SubsetSize(t.Keys, (t.Keys - {Overflow}) + {Overflow});
  }

  /** The stamps of one window are in order and none lies in the future. */
  ghost predicate InOrder(w: seq<real>, now: real) {
    NonDecreasing(w) && forall x | x in w :: x <= now
  }

  ghost predicate Tidy(t: Table, now: real) {
    forall k | k in t :: InOrder(t[k], now)
  }

  lemma ChargeKeepsOrder(w: seq<real>, cutoff: real, now: real)
    requires InOrder(w, now)
    ensures InOrder(Drop(w, cutoff), now) && InOrder(Drop(w, cutoff) + [now], now) && InOrder(w + [], now)
  {
    DropFacts(w, cutoff, cutoff);
    hide Drop;
    assert w + [] == w;
    var d := Drop(w, cutoff);
    forall i | 0 <= i < |d| ensures d[i] <= now {
      assert d[i] in d;
    }
  }

  lemma SettleKeepsTidy(p: Table, keys: seq<Key>, now: real, l: Limits, t': Table, blocked: bool)
    requires Tidy(p, now) && Settles(p, keys, now, l, t', blocked)
    ensures Tidy(t', now)
  {
    forall k | k in t' ensures InOrder(t'[k], now) {
      ChargesAllOrNothing(p, keys, now, l, t', blocked, k);
      hide Settles, NonDecreasing, TouchAll;
      assert InOrder(Window(p, k), now) by {
        if k !in p {
          assert NonDecreasing([]);
        }
      }
      ChargeKeepsOrder(Window(p, k), now - PERIOD, now);
    }
  }

  // What pruning leaves

  /** The keys whose windows hold a stamp after the cutoff. */
  function LiveKeys(t: Table, cutoff: real): set<Key> {
    set k | k in t && CountAfter(t[k], cutoff) > 0
  }

  lemma LiveIffLast(w: seq<real>, cutoff: real)
    requires NonDecreasing(w)
    ensures CountAfter(w, cutoff) > 0 <==> w != [] && Last(w) > cutoff
  {
    if w != [] && Last(w) <= cutoff {
      CountNone(w, cutoff);
    }
  }

  lemma ExpireIsLive(t: Table, cutoff: real, now: real)
    requires Tidy(t, now)
    ensures Expire(t, cutoff).Keys == LiveKeys(t, cutoff)
    ensures forall k | k in LiveKeys(t, cutoff) :: Expire(t, cutoff)[k] == t[k]
  {
    forall k | k in t ensures CountAfter(t[k], cutoff) > 0 <==> t[k] != [] && Last(t[k]) > cutoff {
      assert InOrder(t[k], now);
      LiveIffLast(t[k], cutoff);
    }
  }

  /**
   * Pruning leaves only windows with a stamp after the cutoff, and those as they are; it leaves all of them when they
   * are not too many, and otherwise as many as are allowed, each last used no earlier than any that goes.
   */
  lemma PruneIsExact(t: Table, cutoff: real, maxKeys: nat, p: Table, now: real)
    requires Tidy(t, now) && Prunes(t, cutoff, maxKeys, p)
    ensures forall k | k in p :: k in t && p[k] == t[k] && CountAfter(t[k], cutoff) > 0
    ensures |p| == Min(|LiveKeys(t, cutoff)|, maxKeys)
    ensures |LiveKeys(t, cutoff)| <= maxKeys ==> p.Keys == LiveKeys(t, cutoff)
    ensures forall kept, gone | kept in p && gone in LiveKeys(t, cutoff) && gone !in p ::
              t[gone] != [] && t[kept] != [] && Last(t[gone]) <= Last(t[kept])
  {
    ExpireIsLive(t, cutoff, now);
    var live := Expire(t, cutoff);
    hide Tidy, CountAfter;
    assert |live.Keys| == |live| && |p.Keys| == |p|;
    if |live| <= maxKeys {
      SameSizeSubset(p.Keys, live.Keys);
    }
  }

  function Carried(req: Request): set<Key> { set k | k in req.keys }

  /** With its own keys, no more keys are live than the table may hold. */
  ghost predicate Fits(t: Table, req: Request, maxKeys: nat) {
    |LiveKeys(t, req.at - PERIOD) + Carried(req)| <= maxKeys
  }

  lemma {:induction false} FittingKeysAreTheirOwn(
      p: Table, keys: seq<Key>, n: nat, cutoff: real, maxKeys: nat, all: set<Key>)
    requires n <= |keys| && |all| <= maxKeys && p.Keys <= all && forall k | k in keys :: k in all
    ensures forall k :: k in TouchFirst(p, keys, n, cutoff, maxKeys).effective <==> k in keys[..n]
    ensures TouchFirst(p, keys, n, cutoff, maxKeys).table.Keys <= all
  {
    hide Touch, EffectiveKey, Window, NoRepeats, Drop;
    if n > 0 {
      FittingKeysAreTheirOwn(p, keys, n - 1, cutoff, maxKeys, all);
      var q := TouchFirst(p, keys, n - 1, cutoff, maxKeys);
      TouchOneMore(p, keys, n, cutoff, maxKeys);
      FittingKeyIsItsOwn(q.table, keys[n - 1], maxKeys, all);
      assert keys[..n] == keys[..n - 1] + [keys[n - 1]];
      forall k: Key
        ensures k in Touch(q, keys[n - 1], cutoff, maxKeys).effective <==> k in keys[..n]
        ensures k in Touch(q, keys[n - 1], cutoff, maxKeys).table ==> k in all
      {
        TouchStep(q, keys[n - 1], cutoff, maxKeys, k);
      }
    }
  }

  lemma FittingKeyIsItsOwn(t: Table, key: Key, maxKeys: nat, all: set<Key>)
    requires |all| <= maxKeys && t.Keys <= all && key in all
    ensures EffectiveKey(t, key, maxKeys) == key
  {
    if key !in t {
      SubsetSize(t.Keys + {key}, all);
      assert |t.Keys| == |t|;
    }
  }

  /** Where nothing is evicted, pruning keeps every stamp that can still count. */
  lemma FittingPruneEvictsNothing(t: Table, req: Request, maxKeys: nat, p: Table)
    requires Tidy(t, req.at) && Fits(t, req, maxKeys) && Prunes(t, req.at - PERIOD, maxKeys, p)
    ensures p == Expire(t, req.at - PERIOD) && p.Keys == LiveKeys(t, req.at - PERIOD)
  {
    hide *;
    FitsLive(t, req, maxKeys);
    ExpireIsLive(t, req.at - PERIOD, req.at);
    PruneIsExact(t, req.at - PERIOD, maxKeys, p, req.at);
    SameTables(p, Expire(t, req.at - PERIOD));
  }

  lemma FitsLive(t: Table, req: Request, maxKeys: nat)
    requires Fits(t, req, maxKeys)
    ensures |LiveKeys(t, req.at - PERIOD)| <= maxKeys
  {
    hide LiveKeys, Carried;
    SubsetSize(LiveKeys(t, req.at - PERIOD), LiveKeys(t, req.at - PERIOD) + Carried(req));
  }

  lemma SameTables(a: Table, b: Table)
    requires a.Keys == b.Keys && forall k | k in a :: a[k] == b[k]
    ensures a == b
  {
  }

  lemma ExpireKeepsCounts(t: Table, cutoff: real, now: real, k: Key, cut: real)
    requires Tidy(t, now) && cutoff <= cut
    ensures CountAfter(Window(Expire(t, cutoff), k), cut) == CountAfter(Window(t, k), cut)
  {
    if k in t && t[k] != [] && Last(t[k]) <= cutoff {
      assert InOrder(t[k], now);
      CountNone(t[k], cut);
    }
  }

  lemma {:induction false} SameSizeSubset<T>(a: set<T>, b: set<T>)
    requires a <= b && |a| == |b|
    ensures a == b
  {
    if x :| x in b && x !in a {
      SubsetSize(a, b - {x});
    }
  }

  /** The windows agree with the full log on every stamp that can still count. */
  ghost predicate Mirrors(r: Run, n: nat, now: real)
    requires n <= |r.requests| && n <= |r.blocked| && n < |r.tables|
  {
    Tidy(r.tables[n], now) &&
    forall k, cut | now - PERIOD <= cut :: SameCount(r, n, k, cut)
  }

  ghost predicate SameCount(r: Run, n: nat, k: Key, cut: real)
    requires n <= |r.requests| && n <= |r.blocked| && n < |r.tables|
  {
    CountAfter(Window(r.tables[n], k), cut) == CountAfter(Admitted(r, k, n), cut)
  }

  /** In a fitting request every key is charged under its own name. */
  lemma {:induction false} FittingCharge(t: Table, req: Request, l: Limits, p: Table, k: Key)
    requires Tidy(t, req.at) && Fits(t, req, l.maxKeys) && Prunes(t, req.at - PERIOD, l.maxKeys, p)
    ensures p == Expire(t, req.at - PERIOD) && Tidy(p, req.at) && p.Keys == LiveKeys(t, req.at - PERIOD)
    ensures k in TouchAll(p, req.keys, req.at - PERIOD, l.maxKeys).effective <==> k in req.keys
  {
    FittingPruneEvictsNothing(t, req, l.maxKeys, p);
    FittingKeysAreTheirOwn(p, req.keys, |req.keys|, req.at - PERIOD, l.maxKeys, p.Keys + Carried(req));
    assert req.keys[..|req.keys|] == req.keys;
  }

  /** A fitting request adds one counted stamp per key that it carries, when it is admitted. */
  lemma FittingCount(t: Table, req: Request, l: Limits, p: Table, t': Table, blocked: bool, k: Key, cut: real)
    requires Tidy(t, req.at) && Fits(t, req, l.maxKeys) && Prunes(t, req.at - PERIOD, l.maxKeys, p)
    requires Settles(p, req.keys, req.at, l, t', blocked) && req.at - PERIOD <= cut
    ensures CountAfter(Window(t', k), cut) ==
            CountAfter(Window(t, k), cut) + (if k in req.keys && !blocked && req.at > cut then 1 else 0)
  {
    hide Prunes, Settles, Fits, Expire, Tidy, TouchAll, Drop, CountAfter, Window;
    FittingCharge(t, req, l, p, k);
    ExpireKeepsCounts(t, req.at - PERIOD, req.at, k, cut);
    ChargesAllOrNothing(p, req.keys, req.at, l, t', blocked, k);
    DropFacts(Window(p, k), req.at - PERIOD, cut);
    var kept := if k in req.keys then Drop(Window(p, k), req.at - PERIOD) else Window(p, k);
    CountAppend(kept, req.at, cut);
    assert kept + [] == kept;
  }

  /** What a fitting request compares with the limit: the live stamps of each of its keys. */
  lemma FittingWindow(t: Table, req: Request, l: Limits, p: Table, k: Key)
    requires Tidy(t, req.at) && Fits(t, req, l.maxKeys) && Prunes(t, req.at - PERIOD, l.maxKeys, p)
    requires k in req.keys
    ensures |Window(TouchAll(p, req.keys, req.at - PERIOD, l.maxKeys).table, k)| ==
            CountAfter(Window(t, k), req.at - PERIOD)
  {
    FittingCharge(t, req, l, p, k);
    ExpireKeepsCounts(t, req.at - PERIOD, req.at, k, req.at - PERIOD);
    TouchedWindow(p, req.keys, |req.keys|, req.at - PERIOD, l.maxKeys, k);
    hide Prunes, Fits, Expire, TouchFirst, Drop, CountAfter;
    assert NonDecreasing(Window(p, k)) by {
      if k in p {
        assert InOrder(p[k], req.at);
      }
    }
    DropFacts(Window(p, k), req.at - PERIOD, req.at - PERIOD);
  }

  /** A fitting request is refused exactly when one of its own windows is full. */
  lemma FittingVerdict(t: Table, req: Request, l: Limits, p: Table, t': Table, blocked: bool)
    requires Tidy(t, req.at) && Fits(t, req, l.maxKeys) && Prunes(t, req.at - PERIOD, l.maxKeys, p)
    requires Settles(p, req.keys, req.at, l, t', blocked)
    ensures blocked <==> exists k :: k in req.keys && CountAfter(Window(t, k), req.at - PERIOD) >= l.perMinute
  {
    hide *;
    var q := TouchAll(p, req.keys, req.at - PERIOD, l.maxKeys);
    SettledVerdict(p, req.keys, req.at, l, t', blocked);
    forall k: Key
      ensures k in q.effective <==> k in req.keys
      ensures k in req.keys ==> |Window(q.table, k)| == CountAfter(Window(t, k), req.at - PERIOD)
    {
      FittingCharge(t, req, l, p, k);
      if k in req.keys {
        FittingWindow(t, req, l, p, k);
      }
    }
    SameVerdict(q, t, req.keys, req.at - PERIOD, l.perMinute);
  }

  lemma SettledVerdict(p: Table, keys: seq<Key>, now: real, l: Limits, t': Table, blocked: bool)
    requires Settles(p, keys, now, l, t', blocked)
    ensures var q := TouchAll(p, keys, now - PERIOD, l.maxKeys);
            (blocked <==> Full(q.table, q.effective, l.perMinute)) && t'.Keys == q.table.Keys
  {
    hide TouchAll, Full;
  }

  lemma SameVerdict(q: Prepared, t: Table, keys: seq<Key>, cutoff: real, limit: nat)
    requires forall k :: k in q.effective <==> k in keys
    requires forall k | k in keys :: |Window(q.table, k)| == CountAfter(Window(t, k), cutoff)
    ensures Full(q.table, q.effective, limit) <==> exists k :: k in keys && CountAfter(Window(t, k), cutoff) >= limit
  {
    hide Window, CountAfter;
  }

  lemma MirrorStep(r: Run, l: Limits, n: nat, p: Table)
    requires IsRun(r, l) && n < |r.requests|
    requires Mirrors(r, n, r.requests[n].at) && Fits(r.tables[n], r.requests[n], l.maxKeys)
    requires Prunes(r.tables[n], r.requests[n].at - PERIOD, l.maxKeys, p)
    requires Settles(p, r.requests[n].keys, r.requests[n].at, l, r.tables[n + 1], r.blocked[n])
    ensures Mirrors(r, n + 1, r.requests[n].at)
  {
    hide Prunes, Settles, Fits, CountAfter, Window, Tidy, Serves;
    var req, t, t' := r.requests[n], r.tables[n], r.tables[n + 1];
    FittingCharge(t, req, l, p, Overflow);
    SettleKeepsTidy(p, req.keys, req.at, l, t', r.blocked[n]);
    var next := n + 1;
    forall k, cut | req.at - PERIOD <= cut ensures SameCount(r, next, k, cut) {
      assert SameCount(r, n, k, cut);
      FittingCount(t, req, l, p, t', r.blocked[n], k, cut);
      CountAppend(Admitted(r, k, n), req.at, cut);
      assert Admitted(r, k, n) + [] == Admitted(r, k, n);
    }
  }

  lemma LaterMirrors(r: Run, n: nat, earlier: real, now: real)
    requires n <= |r.requests| && n <= |r.blocked| && n < |r.tables|
    requires Mirrors(r, n, earlier) && earlier <= now
    ensures Mirrors(r, n, now)
  {
    LaterTidy(r.tables[n], earlier, now);
  }

  lemma {:induction false} AdmittedNotLater(r: Run, l: Limits, key: Key, n: nat, now: real)
    requires IsRun(r, l) && n <= |r.requests| && (n > 0 ==> r.requests[n - 1].at <= now)
    ensures forall j | 0 <= j < |Admitted(r, key, n)| :: Admitted(r, key, n)[j] <= now
  {
    if n > 0 {
      AdmittedNotLater(r, l, key, n - 1, now);
    }
  }

  lemma WindowCountsLog(r: Run, l: Limits, n: nat, k: Key, now: real)
    requires IsRun(r, l) && n < |r.requests| && (n > 0 ==> r.requests[n - 1].at <= now) && Mirrors(r, n, now)
    ensures CountAfter(Window(r.tables[n], k), now - PERIOD) == CountIn(Admitted(r, k, n), now - PERIOD, now)
  {
    assert SameCount(r, n, k, now - PERIOD);
    AdmittedNotLater(r, l, k, n, now);
    CountInUpTo(Admitted(r, k, n), now - PERIOD, now);
  }

  // Room in the log

  /** The keys that the first n requests carried. */
  ghost function KeysSeen(r: Run, n: nat): set<Key>
    requires n <= |r.requests|
  {
    if n == 0 then {} else KeysSeen(r, n - 1) + Carried(r.requests[n - 1])
  }

  /** The keys with an admitted request in (now - 60, now]. */
  ghost function LogKeys(r: Run, n: nat, now: real): set<Key>
    requires n <= |r.requests| && n <= |r.blocked|
  {
    set k | k in KeysSeen(r, n) && CountIn(Admitted(r, k, n), now - PERIOD, now) > 0
  }

  /** Request n brings no new key when `maxKeys` callers have admitted requests in the last minute. */
  ghost predicate HasRoom(r: Run, l: Limits, n: nat)
    requires n < |r.requests| && n <= |r.blocked|
  {
    |LogKeys(r, n, r.requests[n].at) + Carried(r.requests[n])| <= l.maxKeys
  }

  lemma {:induction false} AdmittedWereSeen(r: Run, key: Key, n: nat)
    requires n <= |r.requests| && n <= |r.blocked|
    ensures Admitted(r, key, n) != [] ==> key in KeysSeen(r, n)
  {
    if n > 0 {
      AdmittedWereSeen(r, key, n - 1);
    }
  }

  lemma NoneInNothing(from: real, to: real)
    ensures CountIn([], from, to) == 0
  {
  }

  lemma RoomFits(r: Run, l: Limits, n: nat)
    requires IsRun(r, l) && n < |r.requests| && HasRoom(r, l, n) && Mirrors(r, n, r.requests[n].at)
    requires n > 0 ==> r.requests[n - 1].at <= r.requests[n].at
    ensures Fits(r.tables[n], r.requests[n], l.maxKeys)
  {
    hide Mirrors, CountIn, CountAfter, Admitted, KeysSeen, StepServes, Carried;
    var req, now := r.requests[n], r.requests[n].at;
    var live, logged := LiveKeys(r.tables[n], now - PERIOD), LogKeys(r, n, now);
    NoneInNothing(now - PERIOD, now);
    forall k | k in live ensures k in logged {
      WindowCountsLog(r, l, n, k, now);
      AdmittedWereSeen(r, k, n);
    }
    SubsetSize(live + Carried(req), logged + Carried(req));
  }

  lemma {:induction false} RunMirrorsLog(r: Run, l: Limits, n: nat, now: real)
    requires IsRun(r, l) && n <= |r.requests|
    requires forall i | 0 <= i < n :: HasRoom(r, l, i)
    requires n > 0 ==> r.requests[n - 1].at <= now
    ensures Mirrors(r, n, now)
  {
    hide Fits, HasRoom, Serves, Prunes, Settles;
    if n > 0 {
      hide Mirrors;
      RunMirrorsLog(r, l, n - 1, r.requests[n - 1].at);
      RoomFits(r, l, n - 1);
      var p := ServedVia(r, l, n - 1);
      MirrorStep(r, l, n - 1, p);
      LaterMirrors(r, n, r.requests[n - 1].at, now);
    }
  }

  /**
   * The limiter refines the full log: while no request brings a new key when `maxKeys` callers had
   * admitted requests in the last minute, a request is refused exactly when one of its keys has `perMinute` of them.
   */
  lemma RefusedIffLogIsFull(r: Run, l: Limits, n: nat)
    requires IsRun(r, l) && n < |r.requests|
    requires forall i | 0 <= i <= n :: HasRoom(r, l, i)
    ensures r.blocked[n] <==>
            exists k :: k in r.requests[n].keys &&
              CountIn(Admitted(r, k, n), r.requests[n].at - PERIOD, r.requests[n].at) >= l.perMinute
  {
    hide Settles, Prunes, Fits, HasRoom, CountIn, CountAfter, Window, Tidy;
    var req, now := r.requests[n], r.requests[n].at;
    RunMirrorsLog(r, l, n, now);
    RoomFits(r, l, n);
    var p := ServedVia(r, l, n);
    FittingVerdict(r.tables[n], req, l, p, r.tables[n + 1], r.blocked[n]);
    forall k: Key
      ensures CountAfter(Window(r.tables[n], k), now - PERIOD) == CountIn(Admitted(r, k, n), now - PERIOD, now)
    {
      WindowCountsLog(r, l, n, k, now);
    }
  }

  /** The window that a request on a full table is charged to for one of its keys. */
  function ChargedAs(p: Table, key: Key): Key { if key in p then key else Overflow }

  ghost predicate Charges(p: Table, keys: seq<Key>, n: nat, k: Key)
    requires n <= |keys|
  {
    exists j :: 0 <= j < n && ChargedAs(p, keys[j]) == k
  }

  lemma {:induction false} FullTableKeys(p: Table, keys: seq<Key>, n: nat, cutoff: real, maxKeys: nat)
    requires n <= |keys| && |p| >= maxKeys
    ensures forall k :: k in TouchFirst(p, keys, n, cutoff, maxKeys).effective <==> Charges(p, keys, n, k)
  {
    hide Touch, EffectiveKey, Window, NoRepeats, Drop;
    if n > 0 {
      FullTableKeys(p, keys, n - 1, cutoff, maxKeys);
      var q := TouchFirst(p, keys, n - 1, cutoff, maxKeys);
      TouchOneMore(p, keys, n, cutoff, maxKeys);
      FullTableKey(p, keys, n - 1, cutoff, maxKeys);
      forall k: Key ensures k in Touch(q, keys[n - 1], cutoff, maxKeys).effective <==> Charges(p, keys, n, k) {
        TouchStep(q, keys[n - 1], cutoff, maxKeys, k);
        ChargesOneMore(p, keys, n - 1, k);
      }
    }
  }

  lemma ChargesOneMore(p: Table, keys: seq<Key>, n: nat, k: Key)
    requires n < |keys|
    ensures Charges(p, keys, n + 1, k) <==> Charges(p, keys, n, k) || ChargedAs(p, keys[n]) == k
  {
    hide ChargedAs;
    if Charges(p, keys, n, k) {
      var j :| 0 <= j < n && ChargedAs(p, keys[j]) == k;
    }
  }

  lemma FullTableKey(p: Table, keys: seq<Key>, n: nat, cutoff: real, maxKeys: nat)
    requires n < |keys| && |p| >= maxKeys
    requires forall k :: k in TouchFirst(p, keys, n, cutoff, maxKeys).effective <==> Charges(p, keys, n, k)
    ensures EffectiveKey(TouchFirst(p, keys, n, cutoff, maxKeys).table, keys[n], maxKeys) == ChargedAs(p, keys[n])
  {
    hide TouchFirst, Drop, Window, NoRepeats;
    var q := TouchFirst(p, keys, n, cutoff, maxKeys);
    TouchedWindow(p, keys, n, cutoff, maxKeys, keys[n]);
    forall k | k in p ensures k in q.table {
      TouchedWindow(p, keys, n, cutoff, maxKeys, k);
    }
    SubsetSize(p.Keys, q.table.Keys);
    assert |p.Keys| == |p| && |q.table.Keys| == |q.table|;
  }

  /**
   * Where the refinement stops: on a full table every new key of a request is decided by, and
   * charged to, the stamps of all other strangers instead of its own.
   */
  lemma StrangerIsDecidedByOverflow(p: Table, keys: seq<Key>, now: real, l: Limits, t': Table, blocked: bool)
    requires |p| >= l.maxKeys && Tidy(p, now) && Settles(p, keys, now, l, t', blocked)
    ensures blocked <==>
            exists k :: Charges(p, keys, |keys|, k) && CountAfter(Window(p, k), now - PERIOD) >= l.perMinute
    ensures forall k | k in keys && k !in p && k != Overflow :: k !in t'
    ensures !blocked && (exists k :: k in keys && k !in p) ==>
              CountAfter(Window(t', Overflow), now - PERIOD) == CountAfter(Window(p, Overflow), now - PERIOD) + 1 &&
              Window(t', Overflow) != [] && Last(Window(t', Overflow)) == now
  {
    hide Settles, TouchAll, Drop, CountAfter, NoRepeats, Tidy, Charges, Window, Full;
    var q := TouchAll(p, keys, now - PERIOD, l.maxKeys);
    FullTableEffective(p, keys, now - PERIOD, l.maxKeys);
    SettledVerdict(p, keys, now, l, t', blocked);
    forall k: Key
      ensures Charges(p, keys, |keys|, k) ==> |Window(q.table, k)| == CountAfter(Window(p, k), now - PERIOD)
    {
      TouchedBy(p, keys, now - PERIOD, l.maxKeys, k);
      WindowInOrder(p, k, now);
      DropFacts(Window(p, k), now - PERIOD, now - PERIOD);
    }
    StrangerVerdict(q, p, keys, now - PERIOD, l.perMinute);
    forall k | k in keys && k !in p && k != Overflow ensures k !in t' {
      TouchedBy(p, keys, now - PERIOD, l.maxKeys, k);
      StrangersAreNotCharged(p, keys, k);
    }
    if !blocked && exists k :: k in keys && k !in p {
      var k :| k in keys && k !in p;
      ChargesStranger(p, keys, k);
      ChargesAllOrNothing(p, keys, now, l, t', blocked, Overflow);
      DropFacts(Window(p, Overflow), now - PERIOD, now - PERIOD);
      CountAppend(Drop(Window(p, Overflow), now - PERIOD), now, now - PERIOD);
    }
  }

  lemma FullTableEffective(p: Table, keys: seq<Key>, cutoff: real, maxKeys: nat)
    requires |p| >= maxKeys
    ensures forall k :: k in TouchAll(p, keys, cutoff, maxKeys).effective <==> Charges(p, keys, |keys|, k)
  {
    FullTableKeys(p, keys, |keys|, cutoff, maxKeys);
  }

  lemma StrangerVerdict(q: Prepared, p: Table, keys: seq<Key>, cutoff: real, limit: nat)
    requires forall k :: k in q.effective <==> Charges(p, keys, |keys|, k)
    requires forall k | Charges(p, keys, |keys|, k) :: |Window(q.table, k)| == CountAfter(Window(p, k), cutoff)
    ensures Full(q.table, q.effective, limit) <==>
            exists k :: Charges(p, keys, |keys|, k) && CountAfter(Window(p, k), cutoff) >= limit
  {
    hide Window, CountAfter, Charges;
  }

  lemma StrangersAreNotCharged(p: Table, keys: seq<Key>, k: Key)
    requires k !in p && k != Overflow
    ensures !Charges(p, keys, |keys|, k)
  {
  }

  lemma ChargesStranger(p: Table, keys: seq<Key>, k: Key)
    requires k in keys && k !in p
    ensures Charges(p, keys, |keys|, Overflow)
  {
    var j :| 0 <= j < |keys| && keys[j] == k;
    assert ChargedAs(p, keys[j]) == Overflow;
  }

  lemma TouchedBy(t: Table, keys: seq<Key>, cutoff: real, maxKeys: nat, k: Key)
    ensures var q := TouchAll(t, keys, cutoff, maxKeys);
            (k in q.table <==> k in t || k in q.effective) &&
            Window(q.table, k) == (if k in q.effective then Drop(Window(t, k), cutoff) else Window(t, k))
  {
    hide Window, Drop;
    TouchedWindow(t, keys, |keys|, cutoff, maxKeys, k);
  }

  lemma WindowInOrder(t: Table, k: Key, now: real)
    requires Tidy(t, now)
    ensures NonDecreasing(Window(t, k))
  {
    if k in t {
      assert InOrder(t[k], now);
    }
  }

  // The answer

  ghost predicate FirstFullIs(t: Table, keys: seq<Key>, limit: nat, k: Key) {
    exists i :: 0 <= i < |keys| && keys[i] == k && |Window(t, k)| >= limit &&
      forall j | 0 <= j < i :: |Window(t, keys[j])| < limit
  }

  /**
   * A refusal tells the whole seconds, at least one, until the oldest stamp of the first full window expires; an
   * admission tells how many more requests the most used of its windows admits.
   */
  ghost predicate Answers(q: Prepared, now: real, limit: nat, t': Table, d: Decision) {
    if d.blocked then
      exists k :: FirstFullIs(q.table, q.effective, limit, k) && Window(q.table, k) != [] &&
        d.retryAfter == Announced(Window(q.table, k), now)
    else
      (exists k :: k in q.effective && |Window(t', k)| + d.remaining == limit) &&
      (forall k | k in q.effective :: |Window(t', k)| + d.remaining <= limit)
  }

  /** The wait that is announced when the window is the first full one. */
  function Announced(w: seq<real>, now: real): int
    requires w != []
  {
    Max(1, (60.0 - (now - w[0])).Floor)
  }

  /** The seconds until the oldest stamp of the window expires. */
  function Remaining(w: seq<real>, now: real): real
    requires w != []
  {
    w[0] + PERIOD - now
  }

  /**
   * The wait is long enough for the oldest stamp exactly when that has a second left at most, or a
   * whole number of them.
   */
  lemma WaitSufficesIff(w: seq<real>, now: real)
    requires w != []
    ensures w[0] <= now + Announced(w, now) as real - PERIOD <==>
            Remaining(w, now) <= 1.0 || Remaining(w, now) == Remaining(w, now).Floor as real
  {
  }

  /** No window holds more stamps than the limit. */
  ghost predicate WithinLimit(t: Table, limit: nat) {
    forall k | k in t :: |t[k]| <= limit
  }

  lemma {:induction false} DropIsShorter(w: seq<real>, cutoff: real)
    ensures |Drop(w, cutoff)| <= |w|
  {
    if w != [] && w[0] <= cutoff {
      DropIsShorter(w[1..], cutoff);
    }
  }

  lemma StepStaysWithinLimit(t: Table, keys: seq<Key>, now: real, l: Limits, p: Table, t': Table, blocked: bool)
    requires WithinLimit(t, l.perMinute) && Prunes(t, now - PERIOD, l.maxKeys, p) &&
             Settles(p, keys, now, l, t', blocked)
    ensures WithinLimit(t', l.perMinute)
  {
    hide Settles, TouchAll, Drop, Full, NoRepeats;
    var q := TouchAll(p, keys, now - PERIOD, l.maxKeys);
    SettledVerdict(p, keys, now, l, t', blocked);
    forall k | k in t' ensures |t'[k]| <= l.perMinute {
      ChargesAllOrNothing(p, keys, now, l, t', blocked, k);
      TouchedBy(p, keys, now - PERIOD, l.maxKeys, k);
      DropIsShorter(Window(p, k), now - PERIOD);
      if k in q.effective && !blocked {
        NotFull(q.table, q.effective, l.perMinute, k);
      }
    }
  }

  lemma NotFull(t: Table, keys: seq<Key>, limit: nat, k: Key)
    requires !Full(t, keys, limit) && k in keys
    ensures |Window(t, k)| < limit
  {
  }

  /** In every run the windows stay in order and within the limit. */
  lemma {:induction false} RunStaysWithinLimit(r: Run, l: Limits, n: nat, now: real)
    requires IsRun(r, l) && n <= |r.requests| && (n > 0 ==> r.requests[n - 1].at <= now)
    ensures Tidy(r.tables[n], now) && WithinLimit(r.tables[n], l.perMinute)
  {
    hide Serves, Prunes, Settles, Tidy, WithinLimit, InOrder;
    if n > 0 {
      var t, req := r.tables[n - 1], r.requests[n - 1];
      RunStaysWithinLimit(r, l, n - 1, req.at);
      var p := ServedVia(r, l, n - 1);
      StepStaysWithinLimit(t, req.keys, req.at, l, p, r.tables[n], r.blocked[n - 1]);
      PruneKeepsTidy(t, req.at - PERIOD, l.maxKeys, p, req.at);
      SettleKeepsTidy(p, req.keys, req.at, l, r.tables[n], r.blocked[n - 1]);
      LaterTidy(r.tables[n], req.at, now);
    } else {
      EmptyIsTidy(r.tables[0], l.perMinute, now);
    }
  }

  lemma EmptyIsTidy(t: Table, limit: nat, now: real)
    requires t == map[]
    ensures Tidy(t, now) && WithinLimit(t, limit)
  {
  }

  lemma LaterTidy(t: Table, earlier: real, now: real)
    requires Tidy(t, earlier) && earlier <= now
    ensures Tidy(t, now)
  {
    forall k | k in t ensures InOrder(t[k], now) {
      assert InOrder(t[k], earlier);
    }
  }

  /** A full window whose oldest stamp is still there at the given time. */
  ghost predicate StaysFull(t: Table, k: Key, limit: nat, later: real) {
    Window(t, k) != [] && |Window(t, k)| == limit && Window(t, k)[0] > later - PERIOD
  }

  /** On windows within the limit, a request is refused exactly when one of its windows stays full. */
  lemma RefusedIffStaysFull(t: Table, req: Request, l: Limits, p: Table, t': Table, blocked: bool)
    requires l.perMinute > 0 && Tidy(t, req.at) && WithinLimit(t, l.perMinute)
    requires Fits(t, req, l.maxKeys) && Prunes(t, req.at - PERIOD, l.maxKeys, p) &&
             Settles(p, req.keys, req.at, l, t', blocked)
    ensures blocked <==> exists k :: k in req.keys && StaysFull(t, k, l.perMinute, req.at)
  {
    hide Prunes, Settles, Fits, CountAfter, StaysFull;
    FittingVerdict(t, req, l, p, t', blocked);
    forall k: Key
      ensures CountAfter(Window(t, k), req.at - PERIOD) >= l.perMinute <==> StaysFull(t, k, l.perMinute, req.at)
    {
      FullWindow(t, k, l.perMinute, req.at);
    }
  }

  lemma FullWindow(t: Table, k: Key, limit: nat, now: real)
    requires limit > 0 && Tidy(t, now) && WithinLimit(t, limit)
    ensures CountAfter(Window(t, k), now - PERIOD) >= limit <==> StaysFull(t, k, limit, now)
  {
    var w := Window(t, k);
    WindowInOrder(t, k, now);
    CountAtMost(w, now - PERIOD);
    if |w| == limit {
      FewerAfterIff(w, now - PERIOD, limit);
    }
  }

  /**
   * The request that waits as it was told. When nothing else happens in between, a refused request
   * that comes back after the announced wait is refused again exactly when one of its full windows
   * keeps its oldest stamp; and the window that the wait was announced for keeps it exactly when
   * that stamp had more than a second left and not a whole number of seconds.
   */
  lemma RefusedAgainIff(t: Table, req: Request, l: Limits, p: Table, t': Table, d: Decision,
                        again: Request, p': Table, t'': Table, blocked: bool)
    requires l.perMinute > 0 && Tidy(t, req.at) && WithinLimit(t, l.perMinute) && d.blocked
    requires Fits(t, req, l.maxKeys) && Prunes(t, req.at - PERIOD, l.maxKeys, p) &&
             Settles(p, req.keys, req.at, l, t', true)
    requires Answers(TouchAll(p, req.keys, req.at - PERIOD, l.maxKeys), req.at, l.perMinute, t', d)
    requires again == Request(req.keys, req.at + d.retryAfter as real) && Fits(t', again, l.maxKeys)
    requires Prunes(t', again.at - PERIOD, l.maxKeys, p') && Settles(p', again.keys, again.at, l, t'', blocked)
    ensures blocked <==> exists k :: k in req.keys && StaysFull(t', k, l.perMinute, again.at)
    ensures exists k :: AnnouncedFor(t', req, l, d, k) &&
              (StaysFull(t', k, l.perMinute, again.at) <==>
               1.0 < Remaining(Window(t', k), req.at) != Remaining(Window(t', k), req.at).Floor as real)
  {
    hide Prunes, Settles, Fits, TouchAll, Full, Tidy, WithinLimit, Window;
    var q := TouchAll(p, req.keys, req.at - PERIOD, l.maxKeys);
    RefusedLeavesTrimmed(p, req.keys, req.at, l, t');
    var k :| FirstFullIs(q.table, q.effective, l.perMinute, k) && Window(q.table, k) != [] &&
             d.retryAfter == Announced(Window(q.table, k), req.at);
    FittingCharge(t, req, l, p, k);
    StepStaysWithinLimit(t, req.keys, req.at, l, p, t', true);
    SettleKeepsTidy(p, req.keys, req.at, l, t', true);
    AtMost(t', l.perMinute, k);
    WaitSufficesIff(Window(t', k), req.at);
    assert AnnouncedFor(t', req, l, d, k);
    LaterTidy(t', req.at, again.at);
    RefusedIffStaysFull(t', again, l, p', t'', blocked);
  }

  ghost predicate AnnouncedFor(t: Table, req: Request, l: Limits, d: Decision, k: Key) {
    k in req.keys && Window(t, k) != [] && |Window(t, k)| == l.perMinute &&
    d.retryAfter == Announced(Window(t, k), req.at)
  }

  lemma AtMost(t: Table, limit: nat, k: Key)
    requires WithinLimit(t, limit)
    ensures |Window(t, k)| <= limit
  {
  }

  lemma RefusedLeavesTrimmed(p: Table, keys: seq<Key>, now: real, l: Limits, t': Table)
    requires Settles(p, keys, now, l, t', true)
    ensures t' == TouchAll(p, keys, now - PERIOD, l.maxKeys).table
  {
  }

  /** Coming back too early: refused at 10.5 and told 49 seconds, the caller is refused again at 59.5. */
  lemma RetryAfterIsTooShort(k: Key, l: Limits)
    requires l.perMinute == 1 && l.maxKeys > 0
    ensures var t := map[k := [0.0]];
            Prunes(t, 10.5 - PERIOD, l.maxKeys, t) && Settles(t, [k], 10.5, l, t, true) &&
            Answers(TouchAll(t, [k], 10.5 - PERIOD, l.maxKeys), 10.5, 1, t, Decision(true, 49, 0)) &&
            Prunes(t, 59.5 - PERIOD, l.maxKeys, t) && Settles(t, [k], 59.5, l, t, true)
  {
    hide Answers, Settles, Prunes;
    TouchedAlone(k, l, 10.5);
    TouchedAlone(k, l, 59.5);
    assert (60.0 - (10.5 - 0.0)).Floor == 49;
    AnsweredAlone(k, l);
  }

  lemma TouchedAlone(k: Key, l: Limits, now: real)
    requires l.perMinute == 1 && l.maxKeys > 0 && 0.0 <= now < 60.0
    ensures var t := map[k := [0.0]];
            TouchAll(t, [k], now - PERIOD, l.maxKeys) == Prepared(t, [k]) &&
            Prunes(t, now - PERIOD, l.maxKeys, t) && Settles(t, [k], now, l, t, true)
  {
    var t := map[k := [0.0]];
    TouchNone(t, [k], now - PERIOD, l.maxKeys);
    TouchOneMore(t, [k], 1, now - PERIOD, l.maxKeys);
    assert TouchAll(t, [k], now - PERIOD, l.maxKeys) == Prepared(t, [k]);
    assert k in [k] && |Window(t, k)| == 1;
    hide TouchAll, TouchFirst, Drop;
    assert Expire(t, now - PERIOD) == t;
    assert |t| == 1;
  }

  lemma AnsweredAlone(k: Key, l: Limits)
    ensures Answers(Prepared(map[k := [0.0]], [k]), 10.5, 1, map[k := [0.0]], Decision(true, 49, 0))
  {
    var q := Prepared(map[k := [0.0]], [k]);
    assert q.effective[0] == k && |Window(q.table, k)| == 1;
    assert FirstFullIs(q.table, q.effective, 1, k);
    assert Announced([0.0], 10.5) == 49;
  }

  // The limiter object

  class Limiter {
    var windows: Table
    const limits: Limits
    ghost var clock: real

    /** What every request keeps, whatever was evicted before. */
    ghost predicate Valid()
      reads this
    {
      limits.perMinute > 0 && Tidy(windows, clock) && WithinLimit(windows, limits.perMinute) &&
      Named(windows) <= limits.maxKeys
    }

    constructor (perMinute: int, maxKeys: int, start: real)
      ensures Valid() && windows == map[] && clock == start
      ensures limits == Limits(Max(1, perMinute), Max(100, maxKeys))
    {
      windows := map[];
      limits := Limits(Max(1, perMinute), Max(100, maxKeys));
      clock := start;
    }

    method Prune(cutoff: real)
      modifies this`windows
      ensures Prunes(old(windows), cutoff, limits.maxKeys, windows)
    {
      windows := Expire(windows, cutoff);
      ghost var live := windows;
      while |windows| > limits.maxKeys
        invariant forall k | k in windows :: k in live && windows[k] == live[k]
        invariant |windows| == |live| || (limits.maxKeys <= |windows| < |live|)
        invariant forall kept, gone | kept in windows && gone in live && gone !in windows ::
                    Last(live[gone]) <= Last(live[kept])
        decreases |windows|
      {
        ghost var first := OldestAmong(windows, windows.Keys);
        var oldest :| oldest in windows && forall k | k in windows :: Last(windows[oldest]) <= Last(windows[k]);
        windows := windows - {oldest};
      }
    }

    /** The per-key loop: picks the window of each key and pops its expired stamps. */
    method TouchKeys(keys: seq<Key>, cutoff: real) returns (effective: seq<Key>)
      modifies this`windows
      ensures Prepared(windows, effective) == TouchAll(old(windows), keys, cutoff, limits.maxKeys)
    {
      hide TouchFirst;
      effective := [];
      TouchNone(windows, keys, cutoff, limits.maxKeys);
      for i := 0 to |keys|
        invariant Prepared(windows, effective) == TouchFirst(old(windows), keys, i, cutoff, limits.maxKeys)
      {
        TouchOneMore(old(windows), keys, i + 1, cutoff, limits.maxKeys);
        var e := EffectiveKey(windows, keys[i], limits.maxKeys);
        if e !in effective {
          effective := effective + [e];
        }
        var window := Window(windows, e);
        while window != [] && window[0] <= cutoff
          invariant Drop(window, cutoff) == Drop(Window(windows, e), cutoff)
          decreases |window|
        {
          window := window[1..];
        }
        windows := windows[e := window];
      }
    }

    /** A request is refused, or charged to each effective key once. */
    method Enforce(keys: seq<Key>, now: real) returns (d: Decision, ghost pruned: Table)
      requires Valid() && clock <= now && keys != []
      modifies this
      ensures Valid() && clock == now
      ensures Prunes(old(windows), now - PERIOD, limits.maxKeys, pruned)
      ensures Settles(pruned, keys, now, limits, windows, d.blocked)
      ensures Answers(TouchAll(pruned, keys, now - PERIOD, limits.maxKeys), now, limits.perMinute, windows, d)
      ensures if d.blocked then 1 <= d.retryAfter <= 60 && d.remaining == 0 else d.retryAfter == 0
    {
      hide Drop, TouchAll, NonDecreasing, Prunes, Tidy, WithinLimit, Settles, Expire, Full, FirstFullIs, Answers,
          Named, Window;
      BeforeEnforce(old(windows), limits, clock, now);
      var cutoff := now - PERIOD;
      Prune(cutoff);
      pruned := windows;
      PruneKeepsTidy(old(windows), cutoff, limits.maxKeys, pruned, now);
      PrunedSize(old(windows), cutoff, limits.maxKeys, pruned);
      var effective := TouchKeys(keys, cutoff);
      EffectiveKeysHaveWindows(pruned, keys, cutoff, limits.maxKeys);
      var full := FirstFull(windows, effective, limits.perMinute);
      d := Decide(pruned, keys, cutoff, full, effective, now);
      SettleKeepsTidy(pruned, keys, now, limits, windows, d.blocked);
      SettledKeys(pruned, keys, now, limits, windows, d.blocked);
      StepStaysWithinLimit(old(windows), keys, now, limits, pruned, windows, d.blocked);
      clock := now;
    }

    /** Answers a request whose keys have been handled: refuses it, or charges all of its windows. */
    method Decide(ghost p: Table, ghost keys: seq<Key>, cutoff: real, full: Option<Key>, effective: seq<Key>, now: real)
      returns (d: Decision)
      requires limits.perMinute > 0 && Tidy(p, now) && cutoff == now - PERIOD
      requires Prepared(windows, effective) == TouchAll(p, keys, cutoff, limits.maxKeys)
      requires effective != [] && forall k | k in effective :: k in windows
      requires if full.Some? then FirstFullIs(windows, effective, limits.perMinute, full.value)
               else !Full(windows, effective, limits.perMinute)
      modifies this`windows
      ensures Settles(p, keys, now, limits, windows, d.blocked)
      ensures Answers(TouchAll(p, keys, cutoff, limits.maxKeys), now, limits.perMinute, windows, d)
      ensures if d.blocked then 1 <= d.retryAfter <= 60 && d.remaining == 0 else d.retryAfter == 0
    {
      hide Drop, TouchAll, Tidy;
      ghost var q := windows;
      if full.Some? {
        var first := windows[full.value][0];
        HeadIsLive(p, keys, cutoff, limits.maxKeys, full.value, now);
        assert Full(windows, effective, limits.perMinute);
        d := Decision(true, Max(1, (60.0 - (now - first)).Floor), 0);
        assert d.retryAfter == Announced(Window(windows, full.value), now);
      } else {
        windows := Charge(windows, effective, now);
        var longest, at := Longest(windows, effective);
        assert windows[at] == q[at] + [now];
        assert |Window(q, at)| < limits.perMinute;
        d := Decision(false, 0, Max(0, limits.perMinute - longest));
        assert |windows[at]| + d.remaining == limits.perMinute;
      }
    }
  }

  lemma BeforeEnforce(t: Table, l: Limits, clock: real, now: real)
    requires Tidy(t, clock) && clock <= now
    ensures exists earlier :: earlier <= now && Tidy(t, earlier)
  {
  }

  lemma EffectiveKeysHaveWindows(p: Table, keys: seq<Key>, cutoff: real, maxKeys: nat)
    requires keys != []
    ensures var q := TouchAll(p, keys, cutoff, maxKeys);
            q.effective != [] && forall k | k in q.effective :: k in q.table
  {
    hide TouchFirst;
    TouchedWindow(p, keys, |keys|, cutoff, maxKeys, Overflow);
    forall k: Key
      ensures var q := TouchAll(p, keys, cutoff, maxKeys); (k in q.effective ==> k in q.table)
    {
      TouchedWindow(p, keys, |keys|, cutoff, maxKeys, k);
    }
  }

  lemma PruneKeepsTidy(t: Table, cutoff: real, maxKeys: nat, p: Table, now: real)
    requires Prunes(t, cutoff, maxKeys, p)
    requires exists earlier :: earlier <= now && Tidy(t, earlier)
    ensures Tidy(p, now)
  {
    var earlier :| earlier <= now && Tidy(t, earlier);
    forall k | k in p ensures InOrder(p[k], now) {
      assert InOrder(t[k], earlier);
    }
  }

  lemma HeadIsLive(p: Table, keys: seq<Key>, cutoff: real, maxKeys: nat, k: Key, now: real)
    requires Tidy(p, now)
    requires var q := TouchAll(p, keys, cutoff, maxKeys); k in q.effective && Window(q.table, k) != []
    ensures cutoff < Window(TouchAll(p, keys, cutoff, maxKeys).table, k)[0] <= now
  {
    TouchedWindow(p, keys, |keys|, cutoff, maxKeys, k);
    DropHead(Window(p, k), cutoff);
    DropFacts(Window(p, k), cutoff, cutoff);
    if k in p {
      assert InOrder(p[k], now);
      assert Drop(p[k], cutoff)[0] in Drop(p[k], cutoff);
    }
  }

  lemma DropHead(w: seq<real>, cutoff: real)
    ensures Drop(w, cutoff) != [] ==> Drop(w, cutoff)[0] > cutoff
  {
  }

  lemma {:induction false} OldestAmong(t: Table, keys: set<Key>) returns (oldest: Key)
    requires keys != {} && keys <= t.Keys && forall k | k in keys :: t[k] != []
    ensures oldest in keys && forall k | k in keys :: Last(t[oldest]) <= Last(t[k])
  {
    var x :| x in keys;
    if keys == {x} {
      oldest := x;
    } else {
      var y := OldestAmong(t, keys - {x});
      oldest := if Last(t[x]) <= Last(t[y]) then x else y;
    }
  }

  method FirstFull(t: Table, keys: seq<Key>, limit: nat) returns (full: Option<Key>)
    requires forall k | k in keys :: k in t
    ensures if full.Some? then FirstFullIs(t, keys, limit, full.value) else !Full(t, keys, limit)
  {
    for i := 0 to |keys|
      invariant forall j | 0 <= j < i :: |Window(t, keys[j])| < limit
    {
      if |t[keys[i]]| >= limit {
        return Some(keys[i]);
      }
    }
    full := None;
  }

  method Longest(t: Table, keys: seq<Key>) returns (longest: nat, at: Key)
    requires keys != [] && forall k | k in keys :: k in t
    ensures at in keys && longest == |t[at]|
    ensures forall k | k in keys :: |t[k]| <= longest
  {
    at := keys[0];
    longest := |t[at]|;
    for i := 1 to |keys|
      invariant at in keys && longest == |t[at]|
      invariant forall j | 0 <= j < i :: |t[keys[j]]| <= longest
    {
      if |t[keys[i]]| > longest {
        at := keys[i];
        longest := |t[at]|;
      }
    }
  }
}
