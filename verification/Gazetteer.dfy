/** Place matching: the scan over the whole gazetteer and the lookup through the alias index. */
module Gazetteer {
  import opened Common

  datatype Place = Place(
    id: int, name: string, aliases: seq<string>, featureClass: string, featureCode: string, population: int,
    adminName1: Option<string>, adminName2: Option<string>)

  /** The place text of the document, already normalised into a query, with its granularity hint. */
  datatype Candidate = Candidate(text: string, query: string, hint: string)

  datatype Result = Result(
    placeId: int, municipality: Option<string>, regionalUnit: Option<string>, region: Option<string>, precision: string)

  /** The capped logarithm of a population. */
  datatype Weights = Weights(popularity: int -> real) {
    ghost predicate Sound() { forall n :: 0.0 <= popularity(n) <= 7.0 }
  }

  const FEATURE_BONUS: set<string> := {"PPLC", "PPLA", "PPLA2", "ADM1", "ADM2", "ADM3"}

  predicate AdministrativeHint(c: Candidate) {
    c.hint == "MUNICIPALITY" || c.hint == "REGIONAL_UNIT" || c.hint == "REGION"
  }

  predicate Exact(c: Candidate, p: Place) { c.query in p.aliases }

  /** One of the two names is the other followed by further words. */
  predicate PrefixMatch(c: Candidate, p: Place) {
    |c.query| >= 5 &&
    exists a | a in p.aliases :: |a| >= 5 && (a + " " <= c.query || c.query + " " <= a)
  }

  predicate Matches(c: Candidate, p: Place) { Exact(c, p) || PrefixMatch(c, p) }

  function Score(w: Weights, c: Candidate, p: Place): real {
    (if Exact(c, p) then 100.0 else 75.0) +
    (if AdministrativeHint(c) && p.featureClass == "A" then 15.0 else 0.0) +
    (if p.featureCode in FEATURE_BONUS then 8.0 else 0.0) +
    w.popularity(p.population)
  }

  /** The administrative hints and the codes with a bonus, one by one. */
  lemma HintsAndCodes(c: Candidate, p: Place)
    ensures AdministrativeHint(c) <==> c.hint in {"MUNICIPALITY", "REGIONAL_UNIT", "REGION"}
    ensures p.featureCode in FEATURE_BONUS <==>
            p.featureCode == "PPLC" || p.featureCode == "PPLA" || p.featureCode == "PPLA2" ||
            p.featureCode == "ADM1" || p.featureCode == "ADM2" || p.featureCode == "ADM3"
  {
  }

  /** A text of whole words: the longer goes on with a space where the shorter ends. */
  ghost predicate Continues(longer: string, shorter: string) {
    |shorter| < |longer| && longer[|shorter|] == ' ' && forall i | 0 <= i < |shorter| :: longer[i] == shorter[i]
  }

  lemma ContinuesIff(longer: string, shorter: string)
    ensures Continues(longer, shorter) <==> shorter + " " <= longer
  {
    if Continues(longer, shorter) {
      assert longer[..|shorter|] == shorter;
      assert longer[..|shorter| + 1] == shorter + " ";
    }
    if shorter + " " <= longer {
      assert (shorter + " ")[|shorter|] == ' ';
      assert forall i | 0 <= i < |shorter| :: (shorter + " ")[i] == shorter[i];
    }
  }

  /** A prefix match: query and alias have five characters or more, and one continues the other. */
  lemma PrefixMatchIff(c: Candidate, p: Place)
    ensures PrefixMatch(c, p) <==>
            exists a :: a in p.aliases && |a| > 4 && |c.query| > 4 && (Continues(c.query, a) || Continues(a, c.query))
  {
    forall a ensures Continues(c.query, a) <==> a + " " <= c.query {
      ContinuesIff(c.query, a);
    }
    forall a ensures Continues(a, c.query) <==> c.query + " " <= a {
      ContinuesIff(a, c.query);
    }
    hide Continues;
  }

  // The scan

  /** The first best match among the places: a later one must score strictly higher. */
  function Best(w: Weights, c: Candidate, places: seq<Place>): (best: Option<Place>)
    ensures best.Some? ==> best.value in places && Matches(c, best.value)
  {
    if places == [] then None
    else
      var earlier, last := Best(w, c, places[..|places| - 1]), places[|places| - 1];
      if Matches(c, last) && (earlier.None? || Score(w, c, earlier.value) < Score(w, c, last)) then Some(last)
      else earlier
  }

  function ResultOf(c: Candidate, p: Place): Result {
    if "ADM" <= p.featureCode then
      Result(p.id,
             if p.featureCode == "ADM3" || p.featureCode == "ADM4" then Some(p.name) else None,
             if p.featureCode == "ADM2" then Some(p.name) else p.adminName2,
             if p.featureCode == "ADM1" then Some(p.name) else p.adminName1,
             p.featureCode)
    else Result(p.id, Some(c.text), p.adminName2, p.adminName1, "LOCALITY")
  }

  /** What the result says of a place at each level: the place itself at its own, and its parents above it. */
  lemma ResultAtLevel(c: Candidate, p: Place)
    ensures var r := ResultOf(c, p);
            r.placeId == p.id &&
            (p.featureCode == "ADM1" ==> r == Result(p.id, None, p.adminName2, Some(p.name), "ADM1")) &&
            (p.featureCode == "ADM2" ==> r == Result(p.id, None, Some(p.name), p.adminName1, "ADM2")) &&
            (p.featureCode in {"ADM3", "ADM4"} ==>
               r == Result(p.id, Some(p.name), p.adminName2, p.adminName1, p.featureCode)) &&
            ("ADM" <= p.featureCode && p.featureCode !in {"ADM1", "ADM2", "ADM3", "ADM4"} ==>
               r == Result(p.id, None, p.adminName2, p.adminName1, p.featureCode)) &&
            (!("ADM" <= p.featureCode) ==> r == Result(p.id, Some(c.text), p.adminName2, p.adminName1, "LOCALITY"))
  {
    assert "ADM1"[..3] == "ADM" && "ADM2"[..3] == "ADM" && "ADM3"[..3] == "ADM" && "ADM4"[..3] == "ADM";
    assert "ADM1"[3] == '1' && "ADM2"[3] == '2' && "ADM3"[3] == '3' && "ADM4"[3] == '4';
  }

  function Scan(w: Weights, c: Candidate, places: seq<Place>): Option<Result> {
    match Best(w, c, places)
    case None => None
    case Some(p) => Some(ResultOf(c, p))
  }

  /** Match i is the one the scan takes: none scores higher, and none before it scores as high. */
  ghost predicate FirstBest(w: Weights, c: Candidate, places: seq<Place>, i: nat) {
    i < |places| && Matches(c, places[i]) &&
    (forall j | 0 <= j < |places| && Matches(c, places[j]) :: Score(w, c, places[j]) <= Score(w, c, places[i])) &&
    (forall j | 0 <= j < i && Matches(c, places[j]) :: Score(w, c, places[j]) < Score(w, c, places[i]))
  }

  lemma {:induction false} BestIsFirstBest(w: Weights, c: Candidate, places: seq<Place>)
    ensures Best(w, c, places).None? <==> forall p | p in places :: !Matches(c, p)
    ensures Best(w, c, places).Some? ==>
              exists i: nat :: FirstBest(w, c, places, i) && places[i] == Best(w, c, places).value
  {
    hide Matches, Score;
    if places != [] {
      var n := |places| - 1;
      BestIsFirstBest(w, c, places[..n]);
      assert places == places[..n] + [places[n]];
      if Best(w, c, places) == Some(places[n]) && Best(w, c, places[..n]) != Some(places[n]) {
        assert FirstBest(w, c, places, n);
      } else if i: nat :| FirstBest(w, c, places[..n], i) && places[..n][i] == Best(w, c, places[..n]).value {
        assert FirstBest(w, c, places, i);
      }
    }
  }

  /** The scan as the source runs it: collect the scored matches, then take the first maximum. */
  method MatchPlace(w: Weights, c: Candidate, places: seq<Place>) returns (result: Option<Result>)
    ensures result == Scan(w, c, places)
  {
    var ranked: seq<(real, Place)> := [];
    ghost var best: Option<Place> := None;
    for i := 0 to |places|
      invariant forall k | 0 <= k < |ranked| :: ranked[k].0 == Score(w, c, ranked[k].1) && Matches(c, ranked[k].1)
      invariant Top(w, c, ranked) == Best(w, c, places[..i])
    {
      var place := places[i];
      assert places[..i + 1][..i] == places[..i];
      if Matches(c, place) {
        assert (ranked + [(Score(w, c, place), place)])[..|ranked|] == ranked;
        ranked := ranked + [(Score(w, c, place), place)];
      }
    }
    assert places[..|places|] == places;
    if ranked == [] {
      return None;
    }
    var top := ranked[0];
    assert ranked[..1][..0] == [];
    for i := 1 to |ranked|
      invariant Top(w, c, ranked[..i]) == Some(top.1) && top.0 == Score(w, c, top.1)
    {
      assert ranked[..i + 1][..i] == ranked[..i];
      if top.0 < ranked[i].0 {
        top := ranked[i];
      }
    }
    assert ranked[..|ranked|] == ranked;
    result := Some(ResultOf(c, top.1));
  }

  function Top(w: Weights, c: Candidate, ranked: seq<(real, Place)>): Option<Place> {
    if ranked == [] then None
    else
      var earlier, last := Top(w, c, ranked[..|ranked| - 1]), ranked[|ranked| - 1].1;
      if earlier.None? || Score(w, c, earlier.value) < Score(w, c, last) then Some(last) else earlier
  }

  // The index

  type Index = map<string, seq<Place>>

  /** The place once per alias that equals the given one. */
  function Entries(p: Place, n: nat, alias: string): seq<Place>
    requires n <= |p.aliases|
  {
    if n == 0 then [] else Entries(p, n - 1, alias) + (if p.aliases[n - 1] == alias then [p] else [])
  }

  /** The places with the alias, in gazetteer order. */
  function Hits(places: seq<Place>, alias: string): seq<Place> {
    if places == [] then []
    else
      var p := places[|places| - 1];
      Hits(places[..|places| - 1], alias) + Entries(p, |p.aliases|, alias)
  }

  ghost predicate IsIndex(index: Index, places: seq<Place>) {
    forall alias ::
      (alias in index <==> Hits(places, alias) != []) &&
      (alias in index ==> index[alias] == Hits(places, alias))
  }

  function Under(index: Index, alias: string): seq<Place> {
    if alias in index then index[alias] else []
  }

  method BuildIndex(places: seq<Place>) returns (index: Index)
    ensures IsIndex(index, places)
  {
    index := map[];
    for i := 0 to |places|
      invariant forall alias :: Under(index, alias) == Hits(places[..i], alias)
      invariant forall alias | alias in index :: index[alias] != []
    {
      assert places[..i + 1][..i] == places[..i];
      hide Under, Entries;
      index := AddAliases(index, places[i]);
    }
    assert places[..|places|] == places;
  }

  /** Files one place under each of its aliases. */
  method AddAliases(index: Index, p: Place) returns (added: Index)
    requires forall alias | alias in index :: index[alias] != []
    ensures forall alias :: Under(added, alias) == Under(index, alias) + Entries(p, |p.aliases|, alias)
    ensures forall alias | alias in added :: added[alias] != []
  {
    added := index;
    hide Entries;
    assert forall alias :: Under(index, alias) == Under(index, alias) + Entries(p, 0, alias) by {
      forall alias ensures Entries(p, 0, alias) == [] {
        NoEntries(p, alias);
      }
    }
    for j := 0 to |p.aliases|
      invariant forall alias :: Under(added, alias) == Under(index, alias) + Entries(p, j, alias)
      invariant forall alias | alias in added :: added[alias] != []
    {
      forall alias
        ensures Under(added[p.aliases[j] := Under(added, p.aliases[j]) + [p]], alias) ==
                Under(index, alias) + Entries(p, j + 1, alias)
      {
        OneMoreEntry(Under(index, alias), p, j, alias);
      }
      added := added[p.aliases[j] := Under(added, p.aliases[j]) + [p]];
    }
  }

  lemma NoEntries(p: Place, alias: string)
    ensures Entries(p, 0, alias) == []
  {
  }

  lemma OneMoreEntry(before: seq<Place>, p: Place, j: nat, alias: string)
    requires j < |p.aliases|
    ensures before + Entries(p, j + 1, alias) ==
            if p.aliases[j] == alias then before + Entries(p, j, alias) + [p] else before + Entries(p, j, alias)
  {
    assert Entries(p, j, alias) + [] == Entries(p, j, alias);
  }

  /** The lookup: the exact matches if there are any, otherwise everything. */
  function Indexed(w: Weights, c: Candidate, places: seq<Place>, index: Index): Option<Result> {
    Scan(w, c, if Under(index, c.query) != [] then Under(index, c.query) else places)
  }

  // Agreement

  /** The best of the exact matches in gazetteer order. */
  function BestExact(w: Weights, c: Candidate, places: seq<Place>): (best: Option<Place>)
    ensures best.Some? ==> best.value in places && Exact(c, best.value)
  {
    if places == [] then None
    else
      var earlier, last := BestExact(w, c, places[..|places| - 1]), places[|places| - 1];
      if Exact(c, last) && (earlier.None? || Score(w, c, earlier.value) < Score(w, c, last)) then Some(last)
      else earlier
  }

  lemma {:induction false} BestAfterEntries(w: Weights, c: Candidate, before: seq<Place>, p: Place, n: nat)
    requires n <= |p.aliases|
    ensures var entries := Entries(p, n, c.query);
            Best(w, c, before + entries) ==
            if entries != [] && (Best(w, c, before).None? || Score(w, c, Best(w, c, before).value) < Score(w, c, p))
            then Some(p) else Best(w, c, before)
    ensures Entries(p, n, c.query) != [] <==> c.query in p.aliases[..n]
  {
    if n == 0 {
      assert before + [] == before;
    } else {
      BestAfterEntries(w, c, before, p, n - 1);
      assert p.aliases[..n] == p.aliases[..n - 1] + [p.aliases[n - 1]];
      var less := before + Entries(p, n - 1, c.query);
      if p.aliases[n - 1] == c.query {
        assert before + Entries(p, n, c.query) == less + [p];
        assert (less + [p])[..|less|] == less;
        assert Exact(c, p);
      } else {
        assert Entries(p, n, c.query) == Entries(p, n - 1, c.query);
      }
    }
  }

  /** Whatever the hint, the index finds the best of the exact matches, ties broken as in the scan. */
  lemma {:induction false} IndexFindsBestExact(w: Weights, c: Candidate, places: seq<Place>)
    ensures Best(w, c, Hits(places, c.query)) == BestExact(w, c, places)
    ensures Hits(places, c.query) == [] <==> BestExact(w, c, places).None?
  {
    if places != [] {
      var p := places[|places| - 1];
      IndexFindsBestExact(w, c, places[..|places| - 1]);
      BestAfterEntries(w, c, Hits(places[..|places| - 1], c.query), p, |p.aliases|);
      assert p.aliases[..|p.aliases|] == p.aliases;
    }
  }

  /** Without an administrative hint no prefix match can reach an exact one. */
  lemma ExactBeatsPrefix(w: Weights, c: Candidate, exact: Place, other: Place)
    requires w.Sound() && !AdministrativeHint(c) && Exact(c, exact) && !Exact(c, other)
    ensures Score(w, c, other) < Score(w, c, exact)
  {
    assert 0.0 <= w.popularity(exact.population) && w.popularity(other.population) <= 7.0;
  }

  lemma {:induction false} BestIsExactIfAny(w: Weights, c: Candidate, places: seq<Place>)
    requires w.Sound() && !AdministrativeHint(c)
    ensures BestExact(w, c, places).Some? ==> Best(w, c, places) == BestExact(w, c, places)
    ensures BestExact(w, c, places).None? ==> forall p | p in places :: !Exact(c, p)
  {
    if places != [] {
      var n := |places| - 1;
      BestIsExactIfAny(w, c, places[..n]);
      assert places == places[..n] + [places[n]];
      var before, last := Best(w, c, places[..n]), places[n];
      if before.Some? && Exact(c, before.value) && !Exact(c, last) {
        ExactBeatsPrefix(w, c, before.value, last);
      }
      if before.Some? && !Exact(c, before.value) && Exact(c, last) {
        ExactBeatsPrefix(w, c, last, before.value);
      }
    }
  }

  /** The index agrees with the scan for every gazetteer and every candidate without such a hint. */
  lemma IndexAgreesWithScan(w: Weights, c: Candidate, places: seq<Place>, index: Index)
    requires w.Sound() && !AdministrativeHint(c) && IsIndex(index, places)
    ensures Indexed(w, c, places, index) == Scan(w, c, places)
  {
    IndexFindsBestExact(w, c, places);
    BestIsExactIfAny(w, c, places);
  }

  /** A place that the index never sees outranks every exact match, or ties with the first best of them earlier. */
  ghost predicate Outranks(w: Weights, c: Candidate, places: seq<Place>, i: nat)
    requires i < |places|
  {
    Matches(c, places[i]) && !Exact(c, places[i]) &&
    (forall j | 0 <= j < |places| && Exact(c, places[j]) :: Score(w, c, places[j]) <= Score(w, c, places[i])) &&
    (forall j | 0 <= j < i && Exact(c, places[j]) :: Score(w, c, places[j]) < Score(w, c, places[i]))
  }

  ghost predicate FirstBestExact(w: Weights, c: Candidate, places: seq<Place>, i: nat) {
    i < |places| && Exact(c, places[i]) &&
    (forall j | 0 <= j < |places| && Exact(c, places[j]) :: Score(w, c, places[j]) <= Score(w, c, places[i])) &&
    (forall j | 0 <= j < i && Exact(c, places[j]) :: Score(w, c, places[j]) < Score(w, c, places[i]))
  }

  lemma {:induction false} BestExactIsFirstBest(w: Weights, c: Candidate, places: seq<Place>)
    ensures BestExact(w, c, places).None? <==> forall p | p in places :: !Exact(c, p)
    ensures BestExact(w, c, places).Some? ==>
              exists i: nat :: FirstBestExact(w, c, places, i) && places[i] == BestExact(w, c, places).value
  {
    hide Exact, Score;
    if places != [] {
      var n := |places| - 1;
      BestExactIsFirstBest(w, c, places[..n]);
      assert places == places[..n] + [places[n]];
      if BestExact(w, c, places) == Some(places[n]) && BestExact(w, c, places[..n]) != Some(places[n]) {
        assert FirstBestExact(w, c, places, n);
      } else if i: nat :| FirstBestExact(w, c, places[..n], i) && places[..n][i] == BestExact(w, c, places[..n]).value {
        assert FirstBestExact(w, c, places, i);
      }
    }
  }

  /** If the scan takes an exact match, it takes the one the index finds. */
  lemma SameFirstBest(w: Weights, c: Candidate, places: seq<Place>, i: nat, e: nat)
    requires FirstBest(w, c, places, i) && FirstBestExact(w, c, places, e) && Exact(c, places[i])
    ensures i == e
  {
    hide Score, Exact, PrefixMatch;
    assert Matches(c, places[e]);
  }

  lemma NothingOutranksAnExactBest(w: Weights, c: Candidate, places: seq<Place>, i: nat, k: nat)
    requires FirstBest(w, c, places, i) && Exact(c, places[i]) && k < |places|
    ensures !Outranks(w, c, places, k)
  {
    hide Score, Exact, PrefixMatch;
  }

  lemma PrefixBestOutranks(w: Weights, c: Candidate, places: seq<Place>, i: nat)
    requires FirstBest(w, c, places, i) && !Exact(c, places[i])
    ensures Outranks(w, c, places, i)
  {
    hide Score, Exact, PrefixMatch;
  }

  /**
   * Exactly when index and scan take the same place although there are exact matches, whatever
   * the hint: no prefix match outranks the exact ones.
   */
  lemma AgreementIff(w: Weights, c: Candidate, places: seq<Place>)
    requires BestExact(w, c, places).Some?
    ensures Best(w, c, places) == BestExact(w, c, places) <==>
            forall i | 0 <= i < |places| :: !Outranks(w, c, places, i)
  {
    BestIsFirstBest(w, c, places);
    BestExactIsFirstBest(w, c, places);
    assert Matches(c, BestExact(w, c, places).value);
    hide Score, FirstBest, FirstBestExact, Outranks, Exact, Matches;
    var i: nat :| FirstBest(w, c, places, i) && places[i] == Best(w, c, places).value;
    var e: nat :| FirstBestExact(w, c, places, e) && places[e] == BestExact(w, c, places).value;
    if Exact(c, places[i]) {
      SameFirstBest(w, c, places, i, e);
      forall k | 0 <= k < |places| ensures !Outranks(w, c, places, k) {
        NothingOutranksAnExactBest(w, c, places, i, k);
      }
    } else {
      PrefixBestOutranks(w, c, places, i);
    }
  }

  /**
   * A guard that needs no scan: there are exact matches, and under an administrative hint the place
   * is an administrative one with a bonus whose name only starts alike, while every exact match is
   * neither administrative nor has a bonus, and is less popular by two.
   */
  ghost predicate Overtakes(w: Weights, c: Candidate, places: seq<Place>, i: nat)
    requires i < |places|
  {
    AdministrativeHint(c) && PrefixMatch(c, places[i]) && !Exact(c, places[i]) &&
    places[i].featureClass == "A" && places[i].featureCode in FEATURE_BONUS &&
    (exists j :: 0 <= j < |places| && Exact(c, places[j])) &&
    forall j | 0 <= j < |places| && Exact(c, places[j]) :: IsOvertaken(w, places[j], places[i], j < i)
  }

  predicate IsOvertaken(w: Weights, exact: Place, other: Place, earlier: bool) {
    exact.featureClass != "A" && exact.featureCode !in FEATURE_BONUS &&
    (if earlier then w.popularity(exact.population) + 2.0 < w.popularity(other.population)
     else w.popularity(exact.population) + 2.0 <= w.popularity(other.population))
  }

  /** One exact match against one other match: exactly when the other ranks before it. */
  lemma OvertakenIff(w: Weights, c: Candidate, exact: Place, other: Place)
    requires w.Sound() && Exact(c, exact) && PrefixMatch(c, other) && !Exact(c, other)
    ensures var may := AdministrativeHint(c) && other.featureClass == "A" && other.featureCode in FEATURE_BONUS;
            (Score(w, c, exact) <= Score(w, c, other) <==> may && IsOvertaken(w, exact, other, false)) &&
            (Score(w, c, exact) < Score(w, c, other) <==> may && IsOvertaken(w, exact, other, true))
  {
    hide PrefixMatch;
    assert 0.0 <= w.popularity(exact.population) && w.popularity(other.population) <= 7.0;
  }

  lemma OutranksIff(w: Weights, c: Candidate, places: seq<Place>, i: nat)
    requires w.Sound() && i < |places| && exists j :: 0 <= j < |places| && Exact(c, places[j])
    ensures Outranks(w, c, places, i) <==> Overtakes(w, c, places, i)
  {
    hide Score, Exact, PrefixMatch, AdministrativeHint, IsOvertaken;
    if PrefixMatch(c, places[i]) && !Exact(c, places[i]) {
      forall j | 0 <= j < |places| && Exact(c, places[j])
        ensures var may :=
                  AdministrativeHint(c) && places[i].featureClass == "A" && places[i].featureCode in FEATURE_BONUS;
                (Score(w, c, places[j]) <= Score(w, c, places[i]) <==>
                    may && IsOvertaken(w, places[j], places[i], false)) &&
                (Score(w, c, places[j]) < Score(w, c, places[i]) <==> may && IsOvertaken(w, places[j], places[i], true))
      {
        OvertakenIff(w, c, places[j], places[i]);
      }
      WeakerOvertaking(w);
    }
  }

  lemma WeakerOvertaking(w: Weights)
    ensures forall p, q :: IsOvertaken(w, p, q, true) ==> IsOvertaken(w, p, q, false)
  {
  }

  /** Only an administrative place under an administrative hint can outrank an exact match, by five points at most. */
  lemma OnlyAdministrativePlacesOutrank(w: Weights, c: Candidate, places: seq<Place>, i: nat)
    requires w.Sound() && i < |places| && Outranks(w, c, places, i) && BestExact(w, c, places).Some?
    ensures AdministrativeHint(c) && places[i].featureClass == "A" && places[i].featureCode in FEATURE_BONUS
    ensures Score(w, c, places[i]) <= 105.0
  {
    ExactAt(w, c, places);
    OutranksIff(w, c, places, i);
    assert w.popularity(places[i].population) <= 7.0;
  }

  /** The identifier of a place is its key in the gazetteer. */
  ghost predicate Identified(places: seq<Place>) {
    forall p, q | p in places && q in places && p.id == q.id :: p == q
  }

  /**
   * For every gazetteer and candidate, whatever the hint: lookup and scan return the same result
   * iff nothing overtakes.
   */
  lemma IndexAgreesIff(w: Weights, c: Candidate, places: seq<Place>, index: Index)
    requires w.Sound() && IsIndex(index, places) && Identified(places)
    ensures Indexed(w, c, places, index) == Scan(w, c, places) <==>
            forall i | 0 <= i < |places| :: !Overtakes(w, c, places, i)
  {
    hide Outranks, Overtakes, Exact, Matches, Score, Hits;
    IndexFindsBestExact(w, c, places);
    BestExactIsFirstBest(w, c, places);
    if BestExact(w, c, places).Some? {
      ExactAt(w, c, places);
      forall i | 0 <= i < |places| ensures Outranks(w, c, places, i) <==> Overtakes(w, c, places, i) {
        OutranksIff(w, c, places, i);
      }
      AgreementIff(w, c, places);
    } else {
      forall i | 0 <= i < |places| ensures !Overtakes(w, c, places, i) {
        NoExactNoOvertaking(w, c, places, i);
      }
    }
  }

  lemma ExactAt(w: Weights, c: Candidate, places: seq<Place>)
    requires BestExact(w, c, places).Some?
    ensures exists j :: 0 <= j < |places| && Exact(c, places[j])
    ensures Best(w, c, places).Some?
  {
    hide Score, PrefixMatch;
    BestIsFirstBest(w, c, places);
    var p := BestExact(w, c, places).value;
    assert Matches(c, p);
  }

  lemma NoExactNoOvertaking(w: Weights, c: Candidate, places: seq<Place>, i: nat)
    requires i < |places| && forall p | p in places :: !Exact(c, p)
    ensures !Overtakes(w, c, places, i)
  {
    hide Exact, PrefixMatch;
  }

  /** The disagreement: a village of that very name loses the scan to a region whose name continues it. */
  lemma AdministrativeHintDisagrees(w: Weights, index: Index)
    requires w.popularity(0) == 0.0 && w.popularity(10000000) == 7.0
    requires IsIndex(index, VillageAndRegion())
    ensures Indexed(w, Candidate("Attiki", "attiki", "REGION"), VillageAndRegion(), index) !=
            Scan(w, Candidate("Attiki", "attiki", "REGION"), VillageAndRegion())
  {
    hide Hits;
    VillageLoses(w);
    IndexFindsBestExact(w, Candidate("Attiki", "attiki", "REGION"), VillageAndRegion());
  }

  function VillageAndRegion(): seq<Place> {
    [Place(1, "Attiki", ["attiki"], "P", "PPL", 0, None, None),
     Place(2, "Attiki Region", ["attiki region"], "A", "ADM1", 10000000, None, None)]
  }

  lemma VillageLoses(w: Weights)
    requires w.popularity(0) == 0.0 && w.popularity(10000000) == 7.0
    ensures var c, places := Candidate("Attiki", "attiki", "REGION"), VillageAndRegion();
            Best(w, c, places) == Some(places[1]) && BestExact(w, c, places) == Some(places[0])
  {
    var village := Place(1, "Attiki", ["attiki"], "P", "PPL", 0, None, None);
    var region := Place(2, "Attiki Region", ["attiki region"], "A", "ADM1", 10000000, None, None);
    var c := Candidate("Attiki", "attiki", "REGION");
    var places := [village, region];
    assert places[..1] == [village] && [village][..0] == [];
    assert Exact(c, village);
    assert |"attiki"| == 6 && |"attiki region"| == 13;
    assert "attiki"[0] == 'a' && "attiki region" != "attiki";
    assert !Exact(c, region);
    assert "attiki" + " " <= "attiki region";
    assert "attiki region" in region.aliases;
    assert PrefixMatch(c, region);
    assert Score(w, c, region) == 105.0;
    assert Score(w, c, village) == 100.0;
    assert Best(w, c, [village]) == Some(village);
    assert BestExact(w, c, [village]) == Some(village);
  }
}
