/** Spreadsheet column letters: bijective base 26, as the worksheet writer computes them. */
module ColumnLetters {
  predicate IsLetter(c: char) { 'A' <= c <= 'Z' }

  predicate AllLetters(s: string) { forall i | 0 <= i < |s| :: IsLetter(s[i]) }

  function Letter(digit: nat): char
    requires digit < 26
  {
    (65 + digit) as char
  }

  function Ordinal(c: char): nat
    requires IsLetter(c)
  {
    c as int - 65 + 1
  }

  /** The letters of a column number; column 0 has none. */
  function Letters(n: nat): string {
    if n == 0 then [] else Letters((n - 1) / 26) + [Letter((n - 1) % 26)]
  }

  /** The column number that letters stand for in an A1 reference. */
  function Column(s: string): nat
    requires AllLetters(s)
  {
    if s == [] then 0 else 26 * Column(s[..|s| - 1]) + Ordinal(s[|s| - 1])
  }

  /** The loop of the writer. */
  method ColumnName(index: nat) returns (letters: string)
    ensures letters == Letters(index)
  {
    var number := index;
    letters := "";
    while number > 0
      invariant Letters(number) + letters == Letters(index)
      decreases number
    {
      var remainder := (number - 1) % 26;
      assert Letters(number) + letters == Letters((number - 1) / 26) + ([Letter(remainder)] + letters);
      number := (number - 1) / 26;
      letters := [Letter(remainder)] + letters;
    }
    assert [] + letters == letters;
  }

  /** Decoding gives back every column number. */
  lemma {:induction false} ColumnOfLetters(n: nat)
    ensures AllLetters(Letters(n)) && Column(Letters(n)) == n
  {
    if n > 0 {
      ColumnOfLetters((n - 1) / 26);
      assert Letters(n)[..|Letters(n)| - 1] == Letters((n - 1) / 26);
    }
  }

  /** Every string of letters is the name of its column: the correspondence is one to one. */
  lemma {:induction false} LettersOfColumn(s: string)
    requires AllLetters(s)
    ensures Letters(Column(s)) == s
  {
    if s != [] {
      var front, last := s[..|s| - 1], s[|s| - 1];
      LettersOfColumn(front);
      var n := Column(s);
      assert n - 1 == 26 * Column(front) + (Ordinal(last) - 1);
      assert (n - 1) / 26 == Column(front) && (n - 1) % 26 == Ordinal(last) - 1;
      assert Letter((n - 1) % 26) == last;
      assert s == front + [last];
    }
  }

  /** Length first, then the alphabet from the left. */
  predicate Precedes(a: string, b: string) {
    |a| < |b| || (|a| == |b| && LetterwiseLess(a, b))
  }

  predicate LetterwiseLess(a: string, b: string)
    requires |a| == |b|
  {
    a != [] && (a[0] < b[0] || (a[0] == b[0] && LetterwiseLess(a[1..], b[1..])))
  }

  /** The alphabetic order, seen from the right. */
  lemma {:induction false} LessFromRight(a: string, b: string)
    requires |a| == |b| > 0
    ensures var n := |a| - 1;
            LetterwiseLess(a, b) <==>
            LetterwiseLess(a[..n], b[..n]) || (a[..n] == b[..n] && a[n] < b[n])
  {
    var n := |a| - 1;
    if n > 0 {
      LessFromRight(a[1..], b[1..]);
      assert a[1..][..n - 1] == a[..n][1..] && b[1..][..n - 1] == b[..n][1..];
      assert a[..n] == [a[0]] + a[..n][1..] && b[..n] == [b[0]] + b[..n][1..];
    }
  }

  lemma {:induction false} LongerIsLarger(a: string, b: string)
    requires AllLetters(a) && AllLetters(b) && |a| < |b|
    ensures Column(a) < Column(b)
  {
    if a != [] {
      LongerIsLarger(a[..|a| - 1], b[..|b| - 1]);
    }
  }

  lemma {:induction false} SameLengthOrder(a: string, b: string)
    requires AllLetters(a) && AllLetters(b) && |a| == |b|
    ensures LetterwiseLess(a, b) <==> Column(a) < Column(b)
  {
    if a != [] {
      var n := |a| - 1;
      SameLengthOrder(a[..n], b[..n]);
      LessFromRight(a, b);
      if Column(a[..n]) == Column(b[..n]) {
        LettersOfColumn(a[..n]);
        LettersOfColumn(b[..n]);
      }
    }
  }

  /** Columns are ordered as their names are: by length, then alphabetically. */
  lemma OrderIsShortlex(m: nat, n: nat)
    ensures m < n <==> Precedes(Letters(m), Letters(n))
  {
    ColumnOfLetters(m);
    ColumnOfLetters(n);
    var a, b := Letters(m), Letters(n);
    if |a| < |b| {
      LongerIsLarger(a, b);
    } else if |b| < |a| {
      LongerIsLarger(b, a);
    } else {
      SameLengthOrder(a, b);
    }
  }
}
