/** The daily choice of countries: some always, the others in rotation. */
module CountryRotation {
  import opened Common

  type Country = string

  function Keep(s: seq<Country>, among: seq<Country>, wanted: bool): seq<Country> {
    if s == [] then []
    else
      var last := s[|s| - 1];
      Keep(s[..|s| - 1], among, wanted) + (if (last in among) == wanted then [last] else [])
  }

  function Pinned(configured: seq<Country>, always: seq<Country>): seq<Country> {
    Keep(Deduplicated(always), configured, true)
  }

  function Rotating(configured: seq<Country>, pinned: seq<Country>): seq<Country> {
    Keep(configured, pinned, false)
  }

  /** The countries of a day, counted from `start` on around the rotation. */
  function Selection(rotating: seq<Country>, start: int, take: nat): seq<Country>
    requires rotating != [] && 0 <= start
  {
    if take == 0 then [] else Selection(rotating, start, take - 1) + [rotating[(start + take - 1) % |rotating|]]
  }

  function Take(batch: int, pinned: seq<Country>, rotating: seq<Country>): int {
    Min(batch - |pinned|, |rotating|)
  }

  /** Leading elements as a slice takes them: a negative bound counts from the end. */
  function Slice(s: seq<Country>, n: int): seq<Country> {
    if n >= |s| then s else if n >= 0 then s[..n] else if -n >= |s| then [] else s[..|s| + n]
  }

  /** The countries of a day; days are counted by ordinals, from 1 on. */
  function CountriesForDay(day: nat, countries: seq<Country>, batch: int, always: seq<Country>): seq<Country> {
    var configured := Deduplicated(countries);
    var pinned := Pinned(configured, always);
    var rotating := Rotating(configured, pinned);
    if rotating == [] || batch <= |pinned| then Slice(pinned, batch)
    else pinned + Selection(rotating, day % |rotating|, Take(batch, pinned, rotating))
  }

  lemma {:induction false} KeepFacts(s: seq<Country>, among: seq<Country>, wanted: bool)
    requires NoRepeats(s)
    ensures NoRepeats(Keep(s, among, wanted))
    ensures forall c :: c in Keep(s, among, wanted) <==> c in s && ((c in among) == wanted)
  {
    if s != [] {
      KeepFacts(s[..|s| - 1], among, wanted);
      assert s == s[..|s| - 1] + [s[|s| - 1]];
    }
  }

  /** The kept and the dropped together are the whole. */
  lemma {:induction false} KeepSplits(s: seq<Country>, among: seq<Country>)
    ensures |Keep(s, among, true)| + |Keep(s, among, false)| == |s|
  {
    if s != [] {
      KeepSplits(s[..|s| - 1], among);
    }
  }

  lemma {:induction false} DistinctSize(a: seq<Country>, b: seq<Country>)
    requires NoRepeats(a) && NoRepeats(b) && forall c :: c in a <==> c in b
    ensures |a| == |b|
  {
    DistinctIsSet(a);
    DistinctIsSet(b);
    assert (set c | c in a) == (set c | c in b);
  }

  lemma {:induction false} DistinctIsSet(a: seq<Country>)
    requires NoRepeats(a)
    ensures |set c | c in a| == |a|
  {
    if a != [] {
      var n := |a| - 1;
      DistinctIsSet(a[..n]);
      assert a == a[..n] + [a[n]];
      assert (set c | c in a) == (set c | c in a[..n]) + {a[n]};
      assert a[n] !in a[..n];
    }
  }

  // One day

  lemma ModFacts(a: int, n: int)
    requires n > 0 && 0 <= a < 2 * n
    ensures a % n == if a < n then a else a - n
  {
    if a >= n {
      assert a == n + (a - n);
      assert a % n == (a - n) % n;
    }
  }

  /** The place of a country in the rotation of a day that starts at the given index. */
  function Place(index: int, start: int, n: int): int {
    if start <= index then index - start else index + n - start
  }

  /** A rotating country is selected exactly when its place is among the first `take`, and at that place. */
  lemma {:induction false} SelectionPlaces(rotating: seq<Country>, start: int, take: nat)
    requires rotating != [] && 0 <= start < |rotating| && take <= |rotating| && NoRepeats(rotating)
    ensures |Selection(rotating, start, take)| == take
    ensures forall i | 0 <= i < |rotating| ::
              if Place(i, start, |rotating|) < take
              then Selection(rotating, start, take)[Place(i, start, |rotating|)] == rotating[i]
              else rotating[i] !in Selection(rotating, start, take)
    ensures forall c | c in Selection(rotating, start, take) :: c in rotating
  {
    if take > 0 {
      SelectionPlaces(rotating, start, take - 1);
      ModFacts(start + take - 1, |rotating|);
      var last := (start + take - 1) % |rotating|;
      assert Place(last, start, |rotating|) == take - 1;
    }
  }

  lemma {:induction false} SelectionIsDistinct(rotating: seq<Country>, start: int, take: nat)
    requires rotating != [] && 0 <= start < |rotating| && take <= |rotating| && NoRepeats(rotating)
    ensures NoRepeats(Selection(rotating, start, take))
  {
    if take > 0 {
      SelectionIsDistinct(rotating, start, take - 1);
      SelectionPlaces(rotating, start, take - 1);
      ModFacts(start + take - 1, |rotating|);
      var last := (start + take - 1) % |rotating|;
      assert Place(last, start, |rotating|) == take - 1;
    }
  }

  /** The pinned and the rotating countries: distinct, disjoint, and together as many as are configured. */
  lemma PinnedAndRotating(countries: seq<Country>, always: seq<Country>)
    ensures var configured := Deduplicated(countries);
            var pinned := Pinned(configured, always);
            var rotating := Rotating(configured, pinned);
            NoRepeats(pinned) && NoRepeats(rotating) && |pinned| + |rotating| == |configured| &&
            (forall c | c in pinned :: c in configured) &&
            (forall c | c in rotating :: c in configured && c !in pinned)
  {
    var configured := Deduplicated(countries);
    var pinned := Pinned(configured, always);
    DeduplicatedFacts(countries);
    DeduplicatedFacts(always);
    hide Deduplicated, Keep;
    KeepFacts(Deduplicated(always), configured, true);
    KeepFacts(configured, pinned, false);
    KeepFacts(configured, pinned, true);
    KeepSplits(configured, pinned);
    DistinctSize(Keep(configured, pinned, true), pinned);
  }

  lemma DistinctSum(a: seq<Country>, b: seq<Country>)
    requires NoRepeats(a) && NoRepeats(b) && forall c | c in b :: c !in a
    ensures NoRepeats(a + b)
  {
    forall i, j | 0 <= i < j < |a + b| ensures (a + b)[i] != (a + b)[j] {
      if i < |a| <= j {
        assert b[j - |a|] in b;
      }
    }
  }

  /** Each day's countries are distinct, as many as the batch allows, and include every pinned one. */
  lemma DailySelection(day: nat, countries: seq<Country>, batch: int, always: seq<Country>)
    requires batch > |Pinned(Deduplicated(countries), always)|
    ensures var configured := Deduplicated(countries);
            var daily := CountriesForDay(day, countries, batch, always);
            NoRepeats(daily) && |daily| == Min(batch, |configured|) &&
            (forall c | c in Pinned(configured, always) :: c in daily) &&
            (forall c | c in daily :: c in configured)
  {
    var configured := Deduplicated(countries);
    var pinned := Pinned(configured, always);
    var rotating := Rotating(configured, pinned);
    PinnedAndRotating(countries, always);
    hide Deduplicated, Keep, Selection, NoRepeats, Pinned, Rotating;
    if rotating != [] {
      var start, take := day % |rotating|, Take(batch, pinned, rotating);
      SelectionIsDistinct(rotating, start, take);
      SelectionPlaces(rotating, start, take);
      var selected := Selection(rotating, start, take);
      DistinctSum(pinned, selected);
      assert CountriesForDay(day, countries, batch, always) == pinned + selected;
    }
  }

  lemma InDeduplicated(s: seq<Country>, e: Country)
    ensures e in Deduplicated(s) <==> e in s
  {
    DeduplicatedFacts(s);
  }

  /** The first occurrence of one element comes before any of the other. */
  ghost predicate ComesFirst(s: seq<Country>, first: Country, second: Country) {
    exists i :: 0 <= i < |s| && s[i] == first && second !in s[..i + 1]
  }

  lemma ComesFirstLater(s: seq<Country>, e: Country, first: Country, second: Country)
    requires ComesFirst(s, first, second)
    ensures ComesFirst(s + [e], first, second)
  {
    var i :| 0 <= i < |s| && s[i] == first && second !in s[..i + 1];
    assert (s + [e])[..i + 1] == s[..i + 1] && (s + [e])[i] == first;
  }

  lemma LastComesLast(s: seq<Country>, e: Country, first: Country)
    requires first in s && e !in s
    ensures ComesFirst(s + [e], first, e)
  {
    var i :| 0 <= i < |s| && s[i] == first;
    assert (s + [e])[..i + 1] == s[..i + 1] && (s + [e])[i] == first;
  }

  /** The elements stand in the order of their first occurrences. */
  lemma {:induction false} DeduplicatedIsStable(s: seq<Country>, i: nat, j: nat)
    requires i < j < |Deduplicated(s)|
    ensures ComesFirst(s, Deduplicated(s)[i], Deduplicated(s)[j])
  {
    hide ComesFirst, NoRepeats;
    var e, front := s[|s| - 1], s[..|s| - 1];
    assert s == front + [e];
    DeduplicatedFacts(front);
    if j < |Deduplicated(front)| {
      DeduplicatedIsStable(front, i, j);
      ComesFirstLater(front, e, Deduplicated(front)[i], Deduplicated(front)[j]);
    } else {
      var first := Deduplicated(front)[i];
      assert first in Deduplicated(front);
      InDeduplicated(front, first);
      LastComesLast(front, e, first);
    }
  }

  lemma ComesFirstIn(s: seq<Country>, first: Country, second: Country)
    requires ComesFirst(Deduplicated(s), first, second) && second in Deduplicated(s)
    ensures ComesFirst(s, first, second)
  {
    var distinct := Deduplicated(s);
    hide Deduplicated;
    var i :| 0 <= i < |distinct| && distinct[i] == first && second !in distinct[..i + 1];
    var j :| 0 <= j < |distinct| && distinct[j] == second;
    forall k | 0 <= k <= i ensures distinct[k] != second {
      assert distinct[..i + 1][k] == distinct[k];
    }
    DeduplicatedIsStable(s, i, j);
  }

  lemma KeptIsIn(s: seq<Country>, among: seq<Country>, wanted: bool, j: nat)
    requires NoRepeats(s) && j < |Keep(s, among, wanted)|
    ensures Keep(s, among, wanted)[j] in s
  {
    KeepFacts(s, among, wanted);
    assert Keep(s, among, wanted)[j] in Keep(s, among, wanted);
  }

  lemma {:induction false} KeepIsStable(s: seq<Country>, among: seq<Country>, wanted: bool, i: nat, j: nat)
    requires NoRepeats(s) && i < j < |Keep(s, among, wanted)|
    ensures ComesFirst(s, Keep(s, among, wanted)[i], Keep(s, among, wanted)[j])
  {
    hide ComesFirst;
    var e, front := s[|s| - 1], s[..|s| - 1];
    assert s == front + [e];
    KeepFacts(front, among, wanted);
    if j < |Keep(front, among, wanted)| {
      KeepIsStable(front, among, wanted, i, j);
      ComesFirstLater(front, e, Keep(front, among, wanted)[i], Keep(front, among, wanted)[j]);
    } else {
      assert Keep(front, among, wanted)[i] in Keep(front, among, wanted);
      LastComesLast(front, e, Keep(front, among, wanted)[i]);
    }
  }

  lemma {:induction false} SelectionAt(rotating: seq<Country>, start: nat, take: nat, j: nat)
    requires rotating != [] && j < take
    ensures |Selection(rotating, start, take)| == take
    ensures Selection(rotating, start, take)[j] == rotating[(start + j) % |rotating|]
  {
    SelectionLength(rotating, start, take - 1);
    if j < take - 1 {
      SelectionAt(rotating, start, take - 1, j);
    }
  }

  lemma {:induction false} SelectionLength(rotating: seq<Country>, start: nat, take: nat)
    requires rotating != []
    ensures |Selection(rotating, start, take)| == take
  {
    if take > 0 {
      SelectionLength(rotating, start, take - 1);
    }
  }

  lemma {:induction false} ModSum(day: nat, j: nat, n: nat)
    requires n > 0
    ensures (day % n + j) % n == (day + j) % n
  {
    if day >= n {
      ModSum(day - n, j, n);
      ModPeriod(day - n, n);
      ModPeriod(day - n + j, n);
      assert day - n + n == day && day - n + j + n == day + j;
    } else {
      ModFacts(day, n);
    }
  }

  /**
   * The order of a day: first the pinned countries, then the rotation from the country on whose index the day falls,
   * which moves on by one country a day.
   */
  lemma CountryAtPlace(day: nat, countries: seq<Country>, batch: int, always: seq<Country>, j: nat)
    requires batch > |Pinned(Deduplicated(countries), always)|
    requires j < Min(batch, |Deduplicated(countries)|)
    ensures var pinned := Pinned(Deduplicated(countries), always);
            var rotating := Rotating(Deduplicated(countries), pinned);
            var daily := CountriesForDay(day, countries, batch, always);
            |daily| == Min(batch, |Deduplicated(countries)|) &&
            if j < |pinned| then daily[j] == pinned[j]
            else rotating != [] && daily[j] == rotating[(day + j - |pinned|) % |rotating|]
  {
    hide Deduplicated, Pinned, Rotating, Selection, NoRepeats;
    var pinned := Pinned(Deduplicated(countries), always);
    var rotating := Rotating(Deduplicated(countries), pinned);
    DailySelection(day, countries, batch, always);
    PinnedAndRotating(countries, always);
    if |pinned| <= j {
      SelectionAt(rotating, day % |rotating|, Take(batch, pinned, rotating), j - |pinned|);
      ModSum(day, j - |pinned|, |rotating|);
    }
  }

  /** Pinned and rotating countries keep the order in which they are configured. */
  lemma OrderIsKept(countries: seq<Country>, always: seq<Country>, i: nat, j: nat)
    requires i < j
    ensures var pinned := Pinned(Deduplicated(countries), always);
            var rotating := Rotating(Deduplicated(countries), pinned);
            (j < |pinned| ==> ComesFirst(always, pinned[i], pinned[j])) &&
            (j < |rotating| ==> ComesFirst(countries, rotating[i], rotating[j]))
  {
    DeduplicatedFacts(countries);
    DeduplicatedFacts(always);
    hide Deduplicated, Keep, NoRepeats, ComesFirst;
    var configured := Deduplicated(countries);
    var pinned := Pinned(configured, always);
    if j < |pinned| {
      KeepIsStable(Deduplicated(always), configured, true, i, j);
      KeptIsIn(Deduplicated(always), configured, true, j);
      ComesFirstIn(always, pinned[i], pinned[j]);
    }
    if j < |Rotating(configured, pinned)| {
      KeepIsStable(configured, pinned, false, i, j);
      KeptIsIn(configured, pinned, false, j);
      ComesFirstIn(countries, Rotating(configured, pinned)[i], Rotating(configured, pinned)[j]);
    }
  }

  /** A batch that the pinned countries fill takes the first of them; a negative one leaves out the last. */
  lemma SmallBatch(day: nat, countries: seq<Country>, batch: int, always: seq<Country>)
    requires batch <= |Pinned(Deduplicated(countries), always)|
    ensures var pinned := Pinned(Deduplicated(countries), always);
            var daily := CountriesForDay(day, countries, batch, always);
            daily <= pinned && |daily| == if batch >= 0 then batch else Max(0, |pinned| + batch)
  {
  }

  // Any run of consecutive days

  ghost predicate ChosenOn(rotating: seq<Country>, take: nat, index: nat, day: nat)
    requires index < |rotating|
  {
    rotating[index] in Selection(rotating, day % |rotating|, take)
  }

  /** On how many of the days first, ..., first + count - 1 the country is selected. */
  ghost function DaysChosen(rotating: seq<Country>, take: nat, index: nat, first: nat, count: nat): nat
    requires index < |rotating|
  {
    if count == 0 then 0
    else DaysChosen(rotating, take, index, first, count - 1) +
         (if ChosenOn(rotating, take, index, first + count - 1) then 1 else 0)
  }

  lemma {:induction false} DaysChosenFromFront(rotating: seq<Country>, take: nat, index: nat, first: nat, count: nat)
    requires index < |rotating|
    ensures DaysChosen(rotating, take, index, first, count + 1) ==
            (if ChosenOn(rotating, take, index, first) then 1 else 0) +
            DaysChosen(rotating, take, index, first + 1, count)
  {
    hide ChosenOn;
    if count > 0 {
      DaysChosenFromFront(rotating, take, index, first, count - 1);
    }
  }

  lemma MultipleIsFar(d: int, n: nat)
    requires d != 0
    ensures d * n >= n || d * n <= 0 - n
  {
    if d > 0 {
      assert (d - 1) * n >= 0;
    } else {
      assert (-d - 1) * n >= 0;
    }
  }

  lemma ModPeriod(day: nat, n: nat)
    requires n > 0
    ensures (day + n) % n == day % n
  {
    var d := (day + n) / n - day / n - 1;
    assert day + n == ((day + n) / n) * n + (day + n) % n && day == (day / n) * n + day % n;
    assert d * n == day % n - (day + n) % n;
    if d != 0 {
      MultipleIsFar(d, n);
    }
  }

  lemma ChosenPeriodically(rotating: seq<Country>, take: nat, index: nat, day: nat)
    requires index < |rotating|
    ensures ChosenOn(rotating, take, index, day + |rotating|) == ChosenOn(rotating, take, index, day)
  {
    hide Selection;
    ModPeriod(day, |rotating|);
  }

  /** Sliding a window of a whole period by a day does not change the count. */
  lemma PeriodSlides(rotating: seq<Country>, take: nat, index: nat, first: nat)
    requires index < |rotating|
    ensures DaysChosen(rotating, take, index, first, |rotating|) ==
            DaysChosen(rotating, take, index, first + 1, |rotating|)
  {
    hide ChosenOn;
    ChosenPeriodically(rotating, take, index, first);
    DaysChosenFromFront(rotating, take, index, first, |rotating| - 1);
    assert first + |rotating| == first + 1 + (|rotating| - 1);
  }

  lemma {:induction false} PeriodSlidesFar(rotating: seq<Country>, take: nat, index: nat, first: nat, later: nat)
    requires index < |rotating| && first <= later
    ensures DaysChosen(rotating, take, index, first, |rotating|) ==
            DaysChosen(rotating, take, index, later, |rotating|)
  {
    if first < later {
      PeriodSlidesFar(rotating, take, index, first, later - 1);
      PeriodSlides(rotating, take, index, later - 1);
    }
  }

  lemma ChosenAfter(rotating: seq<Country>, take: nat, index: nat, later: nat)
    requires index < |rotating| && NoRepeats(rotating) && take <= |rotating| && 1 <= later <= |rotating|
    ensures ChosenOn(rotating, take, index, index + later) <==> |rotating| - later < take
  {
    var n := |rotating|;
    ModFacts(index + later, n);
    SelectionPlaces(rotating, (index + later) % n, take);
    assert Place(index, (index + later) % n, n) == n - later;
    hide Selection;
  }

  /** In the period that ends on its own day a country is selected on the last `take` days. */
  lemma {:induction false} AlignedPeriod(rotating: seq<Country>, take: nat, index: nat, count: nat)
    requires index < |rotating| && NoRepeats(rotating) && take <= |rotating| && count <= |rotating|
    ensures DaysChosen(rotating, take, index, index + 1, count) ==
            if count + take <= |rotating| then 0 else count + take - |rotating|
  {
    hide NoRepeats, ChosenOn;
    if count > 0 {
      AlignedPeriod(rotating, take, index, count - 1);
      assert index + 1 + count - 1 == index + count;
      ChosenAfter(rotating, take, index, count);
    }
  }

  /** Fair rotation: over any |rotating| consecutive days each rotating country is selected on exactly `take`. */
  lemma EachCountryEquallyOften(rotating: seq<Country>, take: nat, index: nat, first: nat)
    requires index < |rotating| && NoRepeats(rotating) && take <= |rotating|
    ensures DaysChosen(rotating, take, index, first, |rotating|) == take
  {
    hide *;
    AlignedPeriod(rotating, take, index, |rotating|);
    if first <= index + 1 {
      PeriodSlidesFar(rotating, take, index, first, index + 1);
    } else {
      PeriodSlidesFar(rotating, take, index, index + 1, first);
    }
  }

  /** On how many of the days first, ..., first + count - 1 the country is among the countries of the day. */
  ghost function DaysServed(
      c: Country, first: nat, count: nat, countries: seq<Country>, batch: int, always: seq<Country>): nat
  {
    if count == 0 then 0
    else DaysServed(c, first, count - 1, countries, batch, always) +
         (if c in CountriesForDay(first + count - 1, countries, batch, always) then 1 else 0)
  }

  lemma ServedOnIsChosenOn(index: nat, day: nat, countries: seq<Country>, batch: int, always: seq<Country>)
    requires batch > |Pinned(Deduplicated(countries), always)|
    requires index < |Rotating(Deduplicated(countries), Pinned(Deduplicated(countries), always))|
    ensures var pinned := Pinned(Deduplicated(countries), always);
            var rotating := Rotating(Deduplicated(countries), pinned);
            rotating[index] in CountriesForDay(day, countries, batch, always) <==>
            ChosenOn(rotating, Take(batch, pinned, rotating), index, day)
  {
    PinnedAndRotating(countries, always);
    hide Deduplicated, Pinned, Rotating, Selection, NoRepeats;
    var pinned := Pinned(Deduplicated(countries), always);
    var rotating := Rotating(Deduplicated(countries), pinned);
    assert rotating[index] in rotating;
  }

  lemma {:induction false} ServedIsChosen(
    index: nat, first: nat, count: nat, countries: seq<Country>, batch: int, always: seq<Country>)
    requires batch > |Pinned(Deduplicated(countries), always)|
    requires index < |Rotating(Deduplicated(countries), Pinned(Deduplicated(countries), always))|
    ensures var pinned := Pinned(Deduplicated(countries), always);
            var rotating := Rotating(Deduplicated(countries), pinned);
            DaysServed(rotating[index], first, count, countries, batch, always) ==
            DaysChosen(rotating, Take(batch, pinned, rotating), index, first, count)
  {
    hide Deduplicated, Pinned, Rotating, CountriesForDay, ChosenOn;
    if count > 0 {
      ServedIsChosen(index, first, count - 1, countries, batch, always);
      ServedOnIsChosenOn(index, first + count - 1, countries, batch, always);
    }
  }

  lemma RotatingCountries(c: Country, countries: seq<Country>, always: seq<Country>)
    ensures var pinned := Pinned(Deduplicated(countries), always);
            c in Rotating(Deduplicated(countries), pinned) <==> c in countries && c !in pinned
  {
    DeduplicatedFacts(countries);
    hide Deduplicated, Keep;
    KeepFacts(Deduplicated(countries), Pinned(Deduplicated(countries), always), false);
  }

  /** Over any n consecutive days each of the n rotating countries has its day exactly `take` times. */
  lemma FairRotation(c: Country, first: nat, countries: seq<Country>, batch: int, always: seq<Country>)
    requires batch > |Pinned(Deduplicated(countries), always)|
    requires c in countries && c !in Pinned(Deduplicated(countries), always)
    ensures var configured := Deduplicated(countries);
            var pinned := Pinned(configured, always);
            DaysServed(c, first, |Rotating(configured, pinned)|, countries, batch, always) ==
            Min(batch, |configured|) - |pinned|
  {
    hide Deduplicated, Pinned, Rotating, NoRepeats, DaysServed, DaysChosen;
    var pinned := Pinned(Deduplicated(countries), always);
    var rotating := Rotating(Deduplicated(countries), pinned);
    PinnedAndRotating(countries, always);
    RotatingCountries(c, countries, always);
    var index :| 0 <= index < |rotating| && rotating[index] == c;
    ServedIsChosen(index, first, |rotating|, countries, batch, always);
    EachCountryEquallyOften(rotating, Take(batch, pinned, rotating), index, first);
  }
}
