/** Time stamps in the order in which they were taken, and how many fall into an interval. */
module TimeStamps {
  ghost predicate NonDecreasing(s: seq<real>) {
    forall i, j | 0 <= i < j < |s| :: s[i] <= s[j]
  }

  /** How many stamps lie after the cutoff. */
  function CountAfter(s: seq<real>, cutoff: real): nat {
    if s == [] then 0 else CountAfter(s[..|s| - 1], cutoff) + (if s[|s| - 1] > cutoff then 1 else 0)
  }

  /** How many stamps lie in the interval (from, to]. */
  function CountIn(s: seq<real>, from: real, to: real): nat {
    if s == [] then 0 else CountIn(s[..|s| - 1], from, to) + (if from < s[|s| - 1] <= to then 1 else 0)
  }

  lemma {:induction false} CountConcat(a: seq<real>, b: seq<real>, cutoff: real)
    ensures CountAfter(a + b, cutoff) == CountAfter(a, cutoff) + CountAfter(b, cutoff)
  {
    if b == [] {
      assert a + b == a;
    } else {
      var n := |b| - 1;
      assert (a + b)[..|a + b| - 1] == a + b[..n];
      CountConcat(a, b[..n], cutoff);
    }
  }

  lemma CountAppend(s: seq<real>, x: real, cutoff: real)
    ensures CountAfter(s + [x], cutoff) == CountAfter(s, cutoff) + (if x > cutoff then 1 else 0)
  {
    assert (s + [x])[..|s + [x]| - 1] == s;
  }

  lemma CountHead(s: seq<real>, cutoff: real)
    requires s != []
    ensures CountAfter(s, cutoff) == (if s[0] > cutoff then 1 else 0) + CountAfter(s[1..], cutoff)
  {
    assert s == [s[0]] + s[1..];
    CountConcat([s[0]], s[1..], cutoff);
  }

  lemma {:induction false} CountAfterAntitone(s: seq<real>, lo: real, hi: real)
    requires lo <= hi
    ensures CountAfter(s, hi) <= CountAfter(s, lo)
  {
    if s != [] {
      CountAfterAntitone(s[..|s| - 1], lo, hi);
    }
  }

  lemma {:induction false} CountInBelow(s: seq<real>, from: real, to: real)
    ensures CountIn(s, from, to) <= CountAfter(s, from)
  {
    if s != [] {
      CountInBelow(s[..|s| - 1], from, to);
    }
  }

  lemma {:induction false} CountInUpTo(s: seq<real>, from: real, to: real)
    requires forall j | 0 <= j < |s| :: s[j] <= to
    ensures CountIn(s, from, to) == CountAfter(s, from)
  {
    if s != [] {
      CountInUpTo(s[..|s| - 1], from, to);
    }
  }

  lemma {:induction false} CountAll(s: seq<real>, cut: real)
    requires forall j | 0 <= j < |s| :: s[j] > cut
    ensures CountAfter(s, cut) == |s|
  {
    if s != [] {
      CountAll(s[..|s| - 1], cut);
    }
  }

  lemma {:induction false} CountAtMost(s: seq<real>, cut: real)
    ensures CountAfter(s, cut) <= |s|
    ensures s != [] && s[0] <= cut ==> CountAfter(s, cut) < |s|
  {
    if s != [] {
      CountAtMost(s[..|s| - 1], cut);
    }
  }

  lemma {:induction false} CountNone(s: seq<real>, cut: real)
    requires forall j | 0 <= j < |s| :: s[j] <= cut
    ensures CountAfter(s, cut) == 0
  {
    if s != [] {
      CountNone(s[..|s| - 1], cut);
    }
  }

  /** Fewer than n of the stamps lie after the cutoff exactly when the n-th latest does not. */
  lemma {:induction false} FewerAfterIff(s: seq<real>, cut: real, n: nat)
    requires NonDecreasing(s) && 0 < n <= |s|
    ensures CountAfter(s, cut) < n <==> s[|s| - n] <= cut
  {
    if s[|s| - 1] <= cut {
      CountNone(s, cut);
    } else if n > 1 {
      FewerAfterIff(s[..|s| - 1], cut, n - 1);
    }
  }
}
