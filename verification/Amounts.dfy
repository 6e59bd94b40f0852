/** Normalising the number of a monetary amount: the two grammars, and printing followed by parsing. */
module Amounts {
  import opened Common

  /** A decimal value: the whole part, and the digits after the decimal mark as written. */
  datatype Amount = Amount(whole: nat, decimals: string)

  predicate IsDigit(c: char) { '0' <= c <= '9' }

  predicate IsMark(c: char) { c == '.' || c == ',' }

  predicate AllDigits(s: string) { forall i | 0 <= i < |s| :: IsDigit(s[i]) }

  // The grammars

  /** Groups of a separator and exactly three digits. */
  predicate Groups(s: string) {
    s == [] || (|s| >= 4 && (IsMark(s[0]) || IsSpace(s[0])) && AllDigits(s[1..4]) && Groups(s[4..]))
  }

  /** The first h characters are one to three digits and at least one group follows. */
  predicate GroupedHead(s: string, h: nat) {
    1 <= h <= 3 && h < |s| && AllDigits(s[..h]) && Groups(s[h..])
  }

  predicate GroupedInteger(s: string) {
    GroupedHead(s, 1) || GroupedHead(s, 2) || GroupedHead(s, 3)
  }

  predicate PlainInteger(s: string) { s != [] && AllDigits(s) }

  /** Nothing, or a decimal mark with one or two digits. */
  predicate Tail(s: string) {
    s == [] || (2 <= |s| <= 3 && IsMark(s[0]) && AllDigits(s[1..]))
  }

  /** The text reads as an integer part of the first n characters and a decimal tail. */
  predicate GroupedReading(s: string, n: nat) {
    n <= |s| && GroupedInteger(s[..n]) && Tail(s[n..])
  }

  predicate PlainReading(s: string, n: nat) {
    n <= |s| && PlainInteger(s[..n]) && Tail(s[n..])
  }

  ghost predicate Grouped(s: string) { exists n :: 0 <= n <= |s| && GroupedReading(s, n) }

  ghost predicate Plain(s: string) { exists n :: 0 <= n <= |s| && PlainReading(s, n) }

  // One reading at most

  lemma {:induction false} GroupsLength(s: string)
    requires Groups(s)
    ensures |s| % 4 == 0
    ensures forall i | 0 <= i < |s| :: if i % 4 == 0 then !IsDigit(s[i]) else IsDigit(s[i])
  {
    if s != [] {
      GroupsLength(s[4..]);
      forall i | 0 <= i < |s| ensures if i % 4 == 0 then !IsDigit(s[i]) else IsDigit(s[i]) {
        if i < 4 {
          assert 0 < i ==> s[1..4][i - 1] == s[i];
        } else {
          assert s[4..][i - 4] == s[i];
        }
      }
    }
  }

  /** The head of a grouped integer ends at its first separator, and whole groups follow. */
  lemma GroupedShape(s: string, h: nat)
    requires GroupedHead(s, h)
    ensures (|s| - h) % 4 == 0 && h + 4 <= |s| && !IsDigit(s[h])
    ensures forall i | 0 <= i < h :: IsDigit(s[i])
    ensures IsDigit(s[h + 1]) && IsDigit(s[h + 2]) && IsDigit(s[h + 3])
  {
    GroupsLength(s[h..]);
    forall i | 0 <= i < h ensures IsDigit(s[i]) {
      assert s[..h][i] == s[i];
    }
    assert s[h..][0] == s[h] && s[h..][1] == s[h + 1] && s[h..][2] == s[h + 2] && s[h..][3] == s[h + 3];
  }

  lemma GroupedHeadOf(s: string) returns (h: nat)
    requires GroupedInteger(s)
    ensures GroupedHead(s, h)
  {
    h := if GroupedHead(s, 1) then 1 else if GroupedHead(s, 2) then 2 else 3;
  }

  /** A grouped reading of m characters starts with its head, goes on with whole groups and leaves less than a group. */
  lemma GroupedReadingShape(s: string, m: nat) returns (h: nat)
    requires GroupedReading(s, m)
    ensures 1 <= h && h + 4 <= m <= |s| <= m + 3 && (m - h) % 4 == 0
    ensures !IsDigit(s[h]) && forall i | 0 <= i < h :: IsDigit(s[i])
  {
    h := GroupedHeadOf(s[..m]);
    GroupedShape(s[..m], h);
    assert s[..m][h] == s[h];
    forall i | 0 <= i < h ensures IsDigit(s[i]) {
      assert s[..m][i] == s[i];
    }
  }

  /** A plain reading ends where the digits end. */
  lemma PlainReadingShape(s: string, n: nat)
    requires PlainReading(s, n)
    ensures n <= |s| <= n + 3 && (n < |s| ==> !IsDigit(s[n]))
    ensures forall i | 0 <= i < n :: IsDigit(s[i])
  {
    forall i | 0 <= i < n ensures IsDigit(s[i]) {
      assert s[..n][i] == s[i];
    }
    assert n < |s| ==> s[n..][0] == s[n];
  }

  /** A grouped text has one reading: the integer part is head plus whole groups, and a tail is shorter than a group. */
  lemma GroupedReadingIsUnique(s: string, m: nat, n: nat)
    requires GroupedReading(s, m) && GroupedReading(s, n)
    ensures m == n
  {
    var g := GroupedReadingShape(s, m);
    var h := GroupedReadingShape(s, n);
    hide *;
    assert g == h;
  }

  /** A plain text has one reading: its integer part ends where the digits end. */
  lemma PlainReadingIsUnique(s: string, m: nat, n: nat)
    requires PlainReading(s, m) && PlainReading(s, n)
    ensures m == n
  {
    PlainReadingShape(s, m);
    PlainReadingShape(s, n);
  }

  /** No text is accepted by both grammars. */
  lemma GrammarsAreDisjoint(s: string)
    requires Grouped(s)
    ensures !Plain(s)
  {
    var m :| 0 <= m <= |s| && GroupedReading(s, m);
    var h := GroupedReadingShape(s, m);
    if Plain(s) {
      var n :| 0 <= n <= |s| && PlainReading(s, n);
      PlainReadingShape(s, n);
    }
  }

  // The parser

  function Filter(s: string, keep: char -> bool): string {
    if s == [] then [] else (if keep(s[0]) then [s[0]] else []) + Filter(s[1..], keep)
  }

  predicate NotSpace(c: char) { !IsSpace(c) }

  function Collapse(s: string): string { Filter(s, NotSpace) }

  function DigitsOf(s: string): string { Filter(s, IsDigit) }

  /** The value of a string of digits. */
  function Value(s: string): nat
    requires AllDigits(s)
  {
    if s == [] then 0 else 10 * Value(s[..|s| - 1]) + (s[|s| - 1] as int - '0' as int)
  }

  /** The length of the integer part under a grammar: no tail, or one of two or three characters. */
  function FindCut(s: string, grouped: bool): Option<nat> {
    if Reads(s, |s|, grouped) then Some(|s|)
    else if |s| >= 2 && Reads(s, |s| - 2, grouped) then Some(|s| - 2)
    else if |s| >= 3 && Reads(s, |s| - 3, grouped) then Some(|s| - 3)
    else None
  }

  predicate Reads(s: string, n: nat, grouped: bool) {
    if grouped then GroupedReading(s, n) else PlainReading(s, n)
  }

  lemma {:induction false} DigitsOfIsDigits(s: string)
    ensures AllDigits(DigitsOf(s))
  {
    if s != [] {
      DigitsOfIsDigits(s[1..]);
    }
  }

  lemma {:induction false} FilterAll(s: string, keep: char -> bool)
    requires forall i | 0 <= i < |s| :: keep(s[i])
    ensures Filter(s, keep) == s
  {
    if s != [] {
      FilterAll(s[1..], keep);
    }
  }

  lemma {:induction false} FilterConcat(a: string, b: string, keep: char -> bool)
    ensures Filter(a + b, keep) == Filter(a, keep) + Filter(b, keep)
  {
    if a == [] {
      assert a + b == b;
    } else {
      FilterConcat(a[1..], b, keep);
      assert (a + b)[1..] == a[1..] + b;
      var head := if keep(a[0]) then [a[0]] else [];
      assert Filter(a, keep) == head + Filter(a[1..], keep);
      assert Filter(a + b, keep) == head + Filter(a[1..] + b, keep);
      hide Filter;
      Regroup(head, Filter(a[1..], keep), Filter(b, keep));
    }
  }

  function Normalize(text: string): Option<Amount> {
    var s := Collapse(text);
    var cut := match FindCut(s, true) { case Some(n) => Some(n) case None => FindCut(s, false) };
    match cut
    case None => None
    case Some(n) =>
      assert AllDigits(DigitsOf(s[..n])) by { DigitsOfIsDigits(s[..n]); }
      Some(Amount(Value(DigitsOf(s[..n])), if n == |s| then [] else s[n + 1..]))
  }

  /** The search finds the reading of each grammar if there is one. */
  lemma CutIsTheReading(s: string, n: nat, grouped: bool)
    ensures FindCut(s, grouped) == Some(n) <==> Reads(s, n, grouped)
  {
    hide Reads, GroupedReading, PlainReading;
    if Reads(s, n, grouped) {
      ReadsNearEnd(s, n, grouped);
      ReadsOnce(s, FindCut(s, grouped).value, n, grouped);
    }
  }

  lemma ReadsNearEnd(s: string, n: nat, grouped: bool)
    requires Reads(s, n, grouped)
    ensures n == |s| || n + 2 == |s| || n + 3 == |s|
  {
    hide GroupedInteger, PlainInteger;
    assert |s[n..]| == |s| - n;
  }

  lemma ReadsOnce(s: string, m: nat, n: nat, grouped: bool)
    requires Reads(s, m, grouped) && Reads(s, n, grouped)
    ensures m == n
  {
    hide GroupedReading, PlainReading;
    if grouped {
      GroupedReadingIsUnique(s, m, n);
    } else {
      PlainReadingIsUnique(s, m, n);
    }
  }

  /** A number is read exactly when one of the grammars accepts it without its spaces. */
  lemma NormalizesIffAccepted(text: string)
    ensures Normalize(text).Some? <==> Grouped(Collapse(text)) || Plain(Collapse(text))
  {
    var s := Collapse(text);
    if n :| 0 <= n <= |s| && GroupedReading(s, n) {
      CutIsTheReading(s, n, true);
    }
    if n :| 0 <= n <= |s| && PlainReading(s, n) {
      CutIsTheReading(s, n, false);
    }
  }

  // Printing

  function DigitChar(d: nat): char
    requires d < 10
  {
    ('0' as int + d) as char
  }

  /** The decimal digits of a number without leading zeros. */
  function Digits(n: nat): string {
    if n < 10 then [DigitChar(n)] else Digits(n / 10) + [DigitChar(n % 10)]
  }

  /** The digits in groups of three from the right, or in one run when there is no separator. */
  function Separated(digits: string, separator: Option<char>): string {
    if separator.None? || |digits| <= 3 then digits
    else Separated(digits[..|digits| - 3], separator) + [separator.value] + digits[|digits| - 3..]
  }

  function Print(a: Amount, separator: Option<char>, mark: char): string {
    Separated(Digits(a.whole), separator) + (if a.decimals == [] then [] else [mark] + a.decimals)
  }

  lemma {:induction false} DigitsAreTheNumber(n: nat)
    ensures Digits(n) != [] && AllDigits(Digits(n)) && Value(Digits(n)) == n
  {
    if n < 10 {
      assert Digits(n)[..0] == [];
    } else {
      DigitsAreTheNumber(n / 10);
      assert Digits(n)[..|Digits(n)| - 1] == Digits(n / 10);
    }
  }

  lemma {:induction false} GroupsConcat(a: string, b: string)
    requires Groups(a) && Groups(b)
    ensures Groups(a + b)
  {
    if a == [] {
      assert a + b == b;
    } else {
      GroupsConcat(a[4..], b);
      assert (a + b)[1..4] == a[1..4] && (a + b)[4..] == a[4..] + b;
    }
  }

  lemma GroupAppended(front: string, h: nat, group: string)
    requires GroupedHead(front, h) && Groups(group)
    ensures GroupedHead(front + group, h)
  {
    hide Groups, AllDigits;
    GroupsConcat(front[h..], group);
    SlicesOfSum(front, group, h);
  }

  lemma SlicesOfSum(a: string, b: string, n: nat)
    requires n <= |a|
    ensures (a + b)[..n] == a[..n] && (a + b)[n..] == a[n..] + b
  {
  }

  lemma FirstGroup(front: string, separator: char, group: string)
    requires 1 <= |front| <= 3 && |group| == 3 && AllDigits(front) && AllDigits(group)
    requires IsMark(separator) || IsSpace(separator)
    ensures Groups([separator] + group) && GroupedHead(front + ([separator] + group), |front|)
  {
    var tail := [separator] + group;
    assert tail[1..4] == group && tail[4..] == [];
    assert Groups(tail);
    assert (front + tail)[..|front|] == front && (front + tail)[|front|..] == tail;
  }

  /** More than three digits, set apart by marks or spaces, form a grouped integer; up to three stay a plain one. */
  lemma {:induction false} SeparatedIsInteger(digits: string, separator: char)
    requires AllDigits(digits) && digits != [] && (IsMark(separator) || IsSpace(separator))
    ensures var s := Separated(digits, Some(separator));
            if |digits| <= 3 then s == digits else GroupedInteger(s)
  {
    if |digits| > 3 {
      var n := |digits| - 3;
      var front, last := Separated(digits[..n], Some(separator)), digits[n..];
      SeparatedIsInteger(digits[..n], separator);
      Regroup(front, [separator], last);
      FirstGroup(last, separator, last);
      hide Groups, IsMark, IsSpace, Separated, GroupedHead;
      if n > 3 {
        var h := GroupedHeadOf(front);
        GroupAppended(front, h, [separator] + last);
      } else {
        FirstGroup(digits[..n], separator, last);
      }
    }
  }

  lemma FilterParts(a: string, c: char, b: string, keep: char -> bool)
    ensures Filter(a + [c] + b, keep) == Filter(a, keep) + (if keep(c) then [c] else []) + Filter(b, keep)
  {
    FilterConcat(a + [c], b, keep);
    FilterConcat(a, [c], keep);
    assert Filter([c], keep) == if keep(c) then [c] else [];
  }

  lemma SeparatedStep(digits: string, separator: char)
    requires |digits| > 3
    ensures var n := |digits| - 3;
            Separated(digits, Some(separator)) == Separated(digits[..n], Some(separator)) + [separator] + digits[n..]
  {
  }

  lemma ShortIsNotSeparated(digits: string, separator: char)
    requires |digits| <= 3
    ensures Separated(digits, Some(separator)) == digits
  {
  }

  /** Separators that a filter drops vanish with it; those that it keeps stay. */
  lemma {:induction false} SeparatedFiltered(digits: string, separator: char, keep: char -> bool)
    requires forall i | 0 <= i < |digits| :: keep(digits[i])
    ensures var s := Separated(digits, Some(separator));
            Filter(s, keep) == if keep(separator) then s else digits
  {
    hide Separated, Filter;
    if |digits| <= 3 {
      ShortIsNotSeparated(digits, separator);
      FilterAll(digits, keep);
    } else {
      var n := |digits| - 3;
      var front, last := Separated(digits[..n], Some(separator)), digits[n..];
      SeparatedStep(digits, separator);
      SeparatedFiltered(digits[..n], separator, keep);
      FilterAll(last, keep);
      FilterParts(front, separator, last, keep);
      if !keep(separator) {
        assert digits[..n] + [] + last == digits;
      }
    }
  }

  /** Groups may be set apart by a mark, a space or nothing, and the decimals by a mark. */
  predicate Printable(separator: Option<char>, mark: char) {
    IsMark(mark) && (separator.None? || IsSpace(separator.value) || IsMark(separator.value))
  }

  lemma TailOf(mark: char, decimals: string)
    requires IsMark(mark) && AllDigits(decimals) && |decimals| <= 2
    ensures var tail := if decimals == [] then [] else [mark] + decimals;
            Tail(tail) && Collapse(tail) == tail
  {
    if decimals != [] {
      assert ([mark] + decimals)[1..] == decimals;
      FilterAll([mark] + decimals, NotSpace);
    }
  }

  /** Reading an integer part that one grammar accepts, followed by a tail. */
  lemma {:induction false} NormalizeReads(text: string, integer: string, tail: string, grouped: bool)
    requires Collapse(text) == integer + tail && Tail(tail)
    requires if grouped then GroupedInteger(integer) else PlainInteger(integer)
    ensures AllDigits(DigitsOf(integer))
    ensures Normalize(text) == Some(Amount(Value(DigitsOf(integer)), if tail == [] then [] else tail[1..]))
  {
    var s := integer + tail;
    assert s[..|integer|] == integer && s[|integer|..] == tail;
    DigitsOfIsDigits(integer);
    CutIsTheReading(s, |integer|, grouped);
    if !grouped && FindCut(s, true).Some? {
      CutIsTheReading(s, FindCut(s, true).value, true);
      assert Grouped(s);
      assert PlainReading(s, |integer|);
      GrammarsAreDisjoint(s);
    }
    if tail != [] {
      assert s[|integer| + 1..] == tail[1..];
    }
  }

  /**
   * The round trip: every amount with at most two decimals, printed with marks, spaces or
   * nothing between its groups and any decimal mark, is read back as itself.
   */
  lemma PrintThenNormalize(a: Amount, separator: Option<char>, mark: char)
    requires AllDigits(a.decimals) && |a.decimals| <= 2 && Printable(separator, mark)
    ensures Normalize(Print(a, separator, mark)) == Some(a)
  {
    hide Separated, Filter, Digits, Value, Groups, Tail, GroupedHead, Normalize;
    var digits := Digits(a.whole);
    var integer := Separated(digits, separator);
    var tail := if a.decimals == [] then [] else [mark] + a.decimals;
    DigitsAreTheNumber(a.whole);
    TailOf(mark, a.decimals);
    FilterAll(digits, IsDigit);
    FilterAll(digits, NotSpace);
    FilterConcat(integer, tail, NotSpace);
    if separator.None? {
      Unseparated(digits);
      NormalizeReads(integer + tail, digits, tail, false);
    } else {
      SeparatedFiltered(digits, separator.value, NotSpace);
      SeparatedFiltered(digits, separator.value, IsDigit);
      if IsSpace(separator.value) {
        NormalizeReads(integer + tail, digits, tail, false);
      } else {
        SeparatedIsInteger(digits, separator.value);
        NormalizeReads(integer + tail, integer, tail, |digits| > 3);
      }
    }
  }

  /** The two usual notations, the plain one, and groups set apart by spaces. */
  lemma UsualNotations(a: Amount)
    requires AllDigits(a.decimals) && |a.decimals| <= 2
    ensures Normalize(Print(a, Some('.'), ',')) == Some(a) && Normalize(Print(a, Some(','), '.')) == Some(a)
    ensures Normalize(Print(a, None, '.')) == Some(a) && Normalize(Print(a, None, ',')) == Some(a)
    ensures Normalize(Print(a, Some(' '), ',')) == Some(a) && Normalize(Print(a, Some('\U{A0}'), '.')) == Some(a)
  {
    hide Normalize, Print;
    PrintThenNormalize(a, Some('.'), ',');
    PrintThenNormalize(a, Some(','), '.');
    PrintThenNormalize(a, None, '.');
    PrintThenNormalize(a, None, ',');
    PrintThenNormalize(a, Some(' '), ',');
    PrintThenNormalize(a, Some('\U{A0}'), '.');
  }

  /** As printed, an amount of a thousand or more with a separator is a grouped number, any other a plain one. */
  lemma PrintedReads(a: Amount, separator: Option<char>, mark: char)
    requires AllDigits(a.decimals) && |a.decimals| <= 2 && Printable(separator, mark)
    ensures if separator.Some? && |Digits(a.whole)| > 3 then Grouped(Print(a, separator, mark))
            else Plain(Print(a, separator, mark))
  {
    hide Separated, Groups, GroupedHead, Tail, Digits, IsMark, IsSpace;
    var digits := Digits(a.whole);
    var integer := Separated(digits, separator);
    var tail := if a.decimals == [] then [] else [mark] + a.decimals;
    DigitsAreTheNumber(a.whole);
    TailOf(mark, a.decimals);
    assert (integer + tail)[..|integer|] == integer && (integer + tail)[|integer|..] == tail;
    if separator.Some? {
      SeparatedIsInteger(digits, separator.value);
    } else {
      Unseparated(digits);
    }
    if separator.Some? && |digits| > 3 {
      assert GroupedReading(integer + tail, |integer|);
    } else {
      assert PlainReading(integer + tail, |integer|);
    }
  }

  /** Without its spaces, a number begins with a digit. */
  lemma NeedsADigit(text: string)
    requires Normalize(text).Some?
    ensures Collapse(text) != [] && '0' <= Collapse(text)[0] <= '9'
  {
    hide Normalize, Groups, Tail, Collapse, GroupedInteger, PlainInteger;
    NormalizesIffAccepted(text);
    var s := Collapse(text);
    if n :| 0 <= n <= |s| && GroupedReading(s, n) {
      HeadIsADigit(s[..n]);
    } else if n :| 0 <= n <= |s| && PlainReading(s, n) {
      HeadIsADigit(s[..n]);
    }
  }

  lemma HeadIsADigit(integer: string)
    requires GroupedInteger(integer) || PlainInteger(integer)
    ensures integer != [] && '0' <= integer[0] <= '9'
  {
    hide Groups;
    if h :| 1 <= h <= 3 && GroupedHead(integer, h) {
      assert integer[..h][0] == integer[0];
    }
  }

  lemma Unseparated(digits: string)
    ensures Separated(digits, None) == digits
  {
  }

  // Numbers as they stand in a text

  predicate HasMark(s: string) { exists i :: 0 <= i < |s| && IsMark(s[i]) }

  predicate HasSpace(s: string) { exists i :: 0 <= i < |s| && IsSpace(s[i]) }

  predicate EndsInGroup(s: string) { |s| >= 3 && forall i | |s| - 3 <= i < |s| :: IsDigit(s[i]) }

  lemma {:induction false} FilterTwice(s: string, outer: char -> bool, inner: char -> bool)
    requires forall c :: inner(c) ==> outer(c)
    ensures Filter(Filter(s, outer), inner) == Filter(s, inner)
  {
    if s != [] {
      FilterTwice(s[1..], outer, inner);
      var head := if outer(s[0]) then [s[0]] else [];
      FilterConcat(head, Filter(s[1..], outer), inner);
      OneFiltered(s[0], outer, inner);
    }
  }

  lemma OneFiltered(c: char, outer: char -> bool, inner: char -> bool)
    requires inner(c) ==> outer(c)
    ensures Filter(if outer(c) then [c] else [], inner) == if inner(c) then [c] else []
  {
    assert [c][1..] == [];
  }

  lemma {:induction false} FilterNone(s: string, keep: char -> bool)
    requires forall i | 0 <= i < |s| :: !keep(s[i])
    ensures Filter(s, keep) == []
  {
    if s != [] {
      FilterNone(s[1..], keep);
    }
  }

  lemma {:induction false} FilterSome(s: string, keep: char -> bool, i: nat)
    requires i < |s| && keep(s[i])
    ensures Filter(s, keep) != []
  {
    if i > 0 {
      FilterSome(s[1..], keep, i - 1);
    }
  }

  /** Whole groups have three digits for each separator. */
  lemma {:induction false} GroupsCount(s: string)
    requires Groups(s)
    ensures |Filter(s, IsDigit)| == 3 * (|Filter(s, IsMark)| + |Filter(s, IsSpace)|)
    ensures s != [] ==> EndsInGroup(s)
  {
    if s != [] {
      var digits, rest := s[1..4], s[4..];
      GroupsCount(rest);
      assert s == [s[0]] + digits + rest;
      PartsCount(s[0], digits, rest, IsDigit);
      PartsCount(s[0], digits, rest, IsMark);
      PartsCount(s[0], digits, rest, IsSpace);
      FilterAll(digits, IsDigit);
      FilterNone(digits, IsMark);
      FilterNone(digits, IsSpace);
      hide Filter, Groups;
      GroupEnds(s, digits, rest);
    }
  }

  lemma GroupEnds(s: string, digits: string, rest: string)
    requires |s| >= 4 && s == s[..1] + digits + rest && |digits| == 3 && AllDigits(digits)
    requires rest == [] || EndsInGroup(rest)
    ensures EndsInGroup(s)
  {
    forall i | |s| - 3 <= i < |s| ensures IsDigit(s[i]) {
      assert if i < 4 then s[i] == digits[i - 1] else s[i] == rest[i - 4];
    }
  }

  lemma PartsCount(c: char, digits: string, rest: string, keep: char -> bool)
    ensures |Filter([c] + digits + rest, keep)| ==
            (if keep(c) then 1 else 0) + |Filter(digits, keep)| + |Filter(rest, keep)|
  {
    FilterConcat([c] + digits, rest, keep);
    FilterConcat([c], digits, keep);
    assert [c][1..] == [];
  }

  /** A grouped integer has as many digits as its head and three for each separator. */
  lemma GroupedCount(s: string, h: nat)
    requires GroupedHead(s, h)
    ensures |Filter(s, IsDigit)| == h + 3 * (|Filter(s, IsMark)| + |Filter(s, IsSpace)|)
    ensures EndsInGroup(s)
  {
    GroupsCount(s[h..]);
    FilterAll(s[..h], IsDigit);
    FilterNone(s[..h], IsMark);
    FilterNone(s[..h], IsSpace);
    hide Groups, Filter;
    assert s == s[..h] + s[h..];
    FilterConcat(s[..h], s[h..], IsDigit);
    FilterConcat(s[..h], s[h..], IsMark);
    FilterConcat(s[..h], s[h..], IsSpace);
    forall i | |s| - 3 <= i < |s| ensures IsDigit(s[i]) {
      assert s[h..][i - h] == s[i];
    }
  }

  lemma CollapsedEnds(s: string)
    requires EndsInGroup(s)
    ensures EndsInGroup(Collapse(s))
  {
    var n := |s| - 3;
    assert s == s[..n] + s[n..];
    FilterConcat(s[..n], s[n..], NotSpace);
    FilterAll(s[n..], NotSpace);
  }

  /** What is left after white space collapses has one place where the decimals may begin. */
  lemma SameCut(c: string, m: nat, n: nat)
    requires m <= |c| && n <= |c| && Tail(c[m..]) && Tail(c[n..]) && EndsInGroup(c[..m]) && EndsInGroup(c[..n])
    ensures m == n
  {
    CutFacts(c, m);
    CutFacts(c, n);
    hide *;
  }

  lemma CutFacts(c: string, m: nat)
    requires m <= |c| && Tail(c[m..]) && EndsInGroup(c[..m])
    ensures 3 <= m && (|c| == m || m + 2 <= |c| <= m + 3)
    ensures m < |c| ==> !IsDigit(c[m])
    ensures IsDigit(c[m - 1]) && IsDigit(c[m - 2]) && IsDigit(c[m - 3])
  {
    assert m < |c| ==> c[m..][0] == c[m];
    assert c[..m][m - 1] == c[m - 1] && c[..m][m - 2] == c[m - 2] && c[..m][m - 3] == c[m - 3];
  }

  /** The integer part of a number as it stands in a text, and what remains of it without its spaces. */
  lemma CollapsedCounts(x: string)
    ensures |Filter(Collapse(x), IsDigit)| == |Filter(x, IsDigit)|
    ensures |Filter(Collapse(x), IsMark)| == |Filter(x, IsMark)|
    ensures Filter(Collapse(x), IsSpace) == []
  {
    FilterTwice(x, NotSpace, IsDigit);
    FilterTwice(x, NotSpace, IsMark);
    FilterKeepsOnly(x, NotSpace);
    forall i | 0 <= i < |Collapse(x)| ensures !IsSpace(Collapse(x)[i]) {
      assert NotSpace(Filter(x, NotSpace)[i]);
    }
    FilterNone(Collapse(x), IsSpace);
  }

  lemma {:induction false} FilterKeepsOnly(s: string, keep: char -> bool)
    ensures forall i | 0 <= i < |Filter(s, keep)| :: keep(Filter(s, keep)[i])
  {
    if s != [] {
      FilterKeepsOnly(s[1..], keep);
    }
  }

  lemma MixedCounts(x: string)
    requires HasMark(x) && HasSpace(x)
    ensures |Filter(x, IsMark)| >= 1 && |Filter(x, IsSpace)| >= 1
  {
    var i :| 0 <= i < |x| && IsMark(x[i]);
    FilterSome(x, IsMark, i);
    var j :| 0 <= j < |x| && IsSpace(x[j]);
    FilterSome(x, IsSpace, j);
  }

  /** Separators of both kinds: neither grammar accepts what is left without the spaces. */
  lemma MixedIsNotGrouped(x: string, h: nat, tail: string)
    requires GroupedHead(x, h) && HasMark(x) && HasSpace(x) && Tail(tail)
    ensures !Grouped(Collapse(x) + tail)
  {
    hide Filter, Groups, IsSpace, Tail, Collapse, EndsInGroup, HasMark, HasSpace;
    var left := Collapse(x);
    var c := left + tail;
    MixedCounts(x);
    CollapsedCounts(x);
    GroupedCount(x, h);
    CollapsedEnds(x);
    assert c[..|left|] == left && c[|left|..] == tail;
    if Grouped(c) {
      var m :| 0 <= m <= |c| && GroupedReading(c, m);
      var g := GroupedHeadOf(c[..m]);
      GroupedCount(c[..m], g);
      SameCut(c, m, |left|);
    }
  }

  lemma MixedIsNotPlain(x: string, h: nat, tail: string)
    requires GroupedHead(x, h) && HasMark(x) && HasSpace(x) && Tail(tail)
    ensures !Plain(Collapse(x) + tail)
  {
    hide Filter, Groups, IsSpace;
    var left := Collapse(x);
    var c := left + tail;
    MixedCounts(x);
    CollapsedCounts(x);
    GroupedCount(x, h);
    CollapsedEnds(x);
    var j := MarkIn(left);
    assert c[j] == left[j];
    if Plain(c) {
      var n :| 0 <= n <= |c| && PlainReading(c, n);
      PlainReadingShape(c, n);
    }
  }

  lemma {:induction false} MarkIn(s: string) returns (j: nat)
    requires |Filter(s, IsMark)| >= 1
    ensures j < |s| && IsMark(s[j])
  {
    if IsMark(s[0]) {
      j := 0;
    } else {
      var k := MarkIn(s[1..]);
      j := k + 1;
    }
  }

  /** Separators of one kind: the number is read, with all its digits. */
  lemma {:induction false} UnmixedIsRead(s: string, n: nat)
    requires GroupedReading(s, n) && !(HasMark(s[..n]) && HasSpace(s[..n]))
    ensures AllDigits(DigitsOf(s[..n]))
    ensures Normalize(s) == Some(Amount(Value(DigitsOf(s[..n])), if n == |s| then [] else s[n + 1..]))
  {
    hide Groups, Normalize, GroupedInteger, Tail;
    var x, tail := s[..n], s[n..];
    assert s == x + tail;
    DigitsOfIsDigits(x);
    FilterConcat(x, tail, NotSpace);
    TailHasNoSpace(tail);
    if !HasSpace(x) {
      FilterAll(x, NotSpace);
      NormalizeReads(s, x, tail, true);
    } else {
      SpacedDigits(x);
      var h := GroupedHeadOf(x);
      GroupedCount(x, h);
      NormalizeReads(s, DigitsOf(x), tail, false);
    }
    assert tail != [] ==> tail[1..] == s[n + 1..];
  }

  lemma TailHasNoSpace(tail: string)
    requires Tail(tail)
    ensures Collapse(tail) == tail
  {
    forall i | 0 <= i < |tail| ensures NotSpace(tail[i]) {
      assert i > 0 ==> tail[1..][i - 1] == tail[i];
    }
    FilterAll(tail, NotSpace);
  }

  /** Without marks, what is left without the spaces are the digits. */
  lemma SpacedDigits(x: string)
    requires GroupedInteger(x) && !HasMark(x)
    ensures Collapse(x) == DigitsOf(x) && DigitsOf(DigitsOf(x)) == DigitsOf(x)
  {
    var h := GroupedHeadOf(x);
    GroupsShape(x[h..]);
    forall i | 0 <= i < |x| ensures NotSpace(x[i]) == IsDigit(x[i]) {
      if i < h {
        assert x[..h][i] == x[i];
      } else {
        assert x[h..][i - h] == x[i];
      }
    }
    SameFilter(x, NotSpace, IsDigit);
    DigitsOfIsDigits(x);
    FilterAll(DigitsOf(x), IsDigit);
  }

  lemma {:induction false} GroupsShape(s: string)
    requires Groups(s)
    ensures forall i | 0 <= i < |s| :: IsDigit(s[i]) || IsMark(s[i]) || IsSpace(s[i])
  {
    if s != [] {
      GroupsShape(s[4..]);
      forall i | 0 <= i < |s| ensures IsDigit(s[i]) || IsMark(s[i]) || IsSpace(s[i]) {
        if 0 < i < 4 {
          assert s[1..4][i - 1] == s[i];
        } else if 4 <= i {
          assert s[4..][i - 4] == s[i];
        }
      }
    }
  }

  lemma {:induction false} SameFilter(s: string, a: char -> bool, b: char -> bool)
    requires forall i | 0 <= i < |s| :: a(s[i]) == b(s[i])
    ensures Filter(s, a) == Filter(s, b)
  {
    if s != [] {
      SameFilter(s[1..], a, b);
    }
  }

  /** Exactly which grouped numbers of a text are read: those whose separators are not marks and spaces mixed. */
  lemma {:induction false} GroupedNumberIsReadIff(s: string, n: nat)
    requires GroupedReading(s, n)
    ensures Normalize(s).Some? <==> !(HasMark(s[..n]) && HasSpace(s[..n]))
  {
    hide Normalize, Groups, Filter, Tail, HasMark, HasSpace;
    if HasMark(s[..n]) && HasSpace(s[..n]) {
      var h := GroupedHeadOf(s[..n]);
      MixedIsNotGrouped(s[..n], h, s[n..]);
      MixedIsNotPlain(s[..n], h, s[n..]);
      TailHasNoSpace(s[n..]);
      FilterConcat(s[..n], s[n..], NotSpace);
      assert s == s[..n] + s[n..];
      NormalizesIffAccepted(s);
    } else {
      UnmixedIsRead(s, n);
    }
  }

  /** A plain number of a text is always read. */
  lemma PlainNumberIsRead(s: string, n: nat)
    requires PlainReading(s, n)
    ensures AllDigits(s[..n])
    ensures Normalize(s) == Some(Amount(Value(s[..n]), if n == |s| then [] else s[n + 1..]))
  {
    hide Normalize, Tail;
    var x, tail := s[..n], s[n..];
    assert s == x + tail;
    FilterAll(x, NotSpace);
    FilterAll(x, IsDigit);
    TailHasNoSpace(tail);
    FilterConcat(x, tail, NotSpace);
    NormalizeReads(s, x, tail, false);
    assert tail != [] ==> tail[1..] == s[n + 1..];
  }
}
