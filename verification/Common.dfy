/**
 * What several of the models share: optional values, minimum and maximum, doubling, white space,
 * and lists without repetition.
 */
module Common {
  datatype Option<+T> = None | Some(value: T)

  function Min(a: int, b: int): int { if b < a then b else a }

  function Max(a: int, b: int): (m: int)
    ensures a <= m && b <= m
  {
    if a < b then b else a
  }

  function Pow2(n: nat): (p: nat)
    ensures p >= 1
  {
    if n == 0 then 1 else 2 * Pow2(n - 1)
  }

  /** The characters that splitting a text at white space drops, among them the no-break and thin spaces. */
  predicate IsSpace(c: char) {
    '\U{9}' <= c <= '\U{D}' || '\U{1C}' <= c <= ' ' || c == '\U{85}' || c == '\U{A0}' || c == '\U{1680}' ||
    '\U{2000}' <= c <= '\U{200A}' || c == '\U{2028}' || c == '\U{2029}' || c == '\U{202F}' || c == '\U{205F}' ||
    c == '\U{3000}'
  }

  /** The first occurrences, in order. */
  function Deduplicated<T(==)>(s: seq<T>): seq<T> {
    if s == [] then []
    else
      var rest := Deduplicated(s[..|s| - 1]);
      if s[|s| - 1] in rest then rest else rest + [s[|s| - 1]]
  }

  ghost predicate NoRepeats<T>(s: seq<T>) {
    forall i, j | 0 <= i < j < |s| :: s[i] != s[j]
  }

  /** Nothing is repeated, nothing gets lost, and nothing comes in. */
  lemma {:induction false} DeduplicatedFacts<T>(s: seq<T>)
    ensures NoRepeats(Deduplicated(s))
    ensures forall e :: e in Deduplicated(s) <==> e in s
    ensures Deduplicated(s) == [] <==> s == []
  {
    if s != [] {
      DeduplicatedFacts(s[..|s| - 1]);
      assert s == s[..|s| - 1] + [s[|s| - 1]];
    }
  }

  lemma Regroup<T>(a: seq<T>, b: seq<T>, c: seq<T>)
    ensures a + (b + c) == a + b + c
  {
  }
}
