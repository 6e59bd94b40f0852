/** The comparison of two versions of a document: greedy matching of terms by text similarity. */
module DocumentTerms {
  import opened Common

  type Text = string

  /** One sentence with its page. */
  datatype Term = Term(page: int, text: Text)

  const MATCHES := 0.52
  const SAME := 0.985

  datatype Change =
    | Removed(base: Term)
    | Changed(base: Term, comparison: Term, similarity: real)
    | Added(comparison: Term)

  /**
   * The text functions of the comparison: case folding, and the similarity of folded texts,
   * which lies between 0 and 1 and is 1 for equal texts only.
   */
  datatype Metric = Metric(fold: Text -> Text, ratio: (Text, Text) -> real) {
    ghost predicate Sound() {
      forall a, b :: 0.0 <= ratio(a, b) <= 1.0 && (ratio(a, b) == 1.0 <==> a == b)
    }

    function Similarity(a: Term, b: Term): real {
      ratio(fold(a.text), fold(b.text))
    }
  }

  /** For each base term handled so far, the index of the comparison term that it took, or -1. */
  type Links = seq<int>

  // What the greedy loop may choose

  ghost predicate Taken(links: Links, j: int) { j in links }

  ghost predicate Free(links: Links, n: nat, j: int) { 0 <= j < n && !Taken(links, j) }

  /** A link is the best free term, if the best is good enough; ties may fall either way. */
  ghost predicate GreedyLink(m: Metric, b: Term, comparison: seq<Term>, earlier: Links, link: int) {
    if link == -1 then forall j | Free(earlier, |comparison|, j) :: m.Similarity(b, comparison[j]) < MATCHES
    else
      Free(earlier, |comparison|, link) && MATCHES <= m.Similarity(b, comparison[link]) &&
      forall j | Free(earlier, |comparison|, j) :: m.Similarity(b, comparison[j]) <= m.Similarity(b, comparison[link])
  }

  /** The links of the first terms of base, for some order in which the remaining set is walked. */
  ghost predicate Greedy(m: Metric, base: seq<Term>, comparison: seq<Term>, links: Links) {
    |links| <= |base| && forall i | 0 <= i < |links| :: GreedyAt(m, base, comparison, links, i)
  }

  ghost predicate GreedyAt(m: Metric, base: seq<Term>, comparison: seq<Term>, links: Links, i: nat)
    requires i < |links| <= |base|
  {
    GreedyLink(m, base[i], comparison, links[..i], links[i])
  }

  ghost predicate InRange(comparison: seq<Term>, links: Links) {
    forall i | 0 <= i < |links| :: -1 <= links[i] < |comparison|
  }

  // The report of the chosen links

  /** The changes of the base terms, in order. */
  function BaseChanges(m: Metric, base: seq<Term>, comparison: seq<Term>, links: Links): seq<Change>
    requires |links| <= |base| && forall i | 0 <= i < |links| :: -1 <= links[i] < |comparison|
  {
    if links == [] then []
    else
      var n := |links| - 1;
      BaseChanges(m, base, comparison, links[..n]) +
      (if links[n] == -1 then [Removed(base[n])]
       else
         var ratio := m.Similarity(base[n], comparison[links[n]]);
         if ratio < SAME then [Changed(base[n], comparison[links[n]], ratio)] else [])
  }

  /** The comparison terms below n that no base term took, in order. */
  function Additions(comparison: seq<Term>, links: Links, n: nat): seq<Change>
    requires n <= |comparison|
  {
    if n == 0 then []
    else Additions(comparison, links, n - 1) + (if n - 1 in links then [] else [Added(comparison[n - 1])])
  }

  function Report(m: Metric, base: seq<Term>, comparison: seq<Term>, links: Links): seq<Change>
    requires |links| <= |base| && forall i | 0 <= i < |links| :: -1 <= links[i] < |comparison|
  {
    BaseChanges(m, base, comparison, links) + Additions(comparison, links, |comparison|)
  }

  function CountRemoved(changes: seq<Change>): nat {
    if changes == [] then 0
    else CountRemoved(changes[..|changes| - 1]) + (if changes[|changes| - 1].Removed? then 1 else 0)
  }

  function CountAdded(changes: seq<Change>): nat {
    if changes == [] then 0
    else CountAdded(changes[..|changes| - 1]) + (if changes[|changes| - 1].Added? then 1 else 0)
  }

  // Every base term has its fate, and no comparison term two of them

  lemma GreedyInRange(m: Metric, base: seq<Term>, comparison: seq<Term>, links: Links)
    requires Greedy(m, base, comparison, links)
    ensures InRange(comparison, links)
  {
    forall i | 0 <= i < |links| ensures -1 <= links[i] < |comparison| {
      assert GreedyAt(m, base, comparison, links, i);
    }
  }

  /** Two base terms never take the same comparison term. */
  lemma MatchesAreInjective(m: Metric, base: seq<Term>, comparison: seq<Term>, links: Links, i: nat, j: nat)
    requires Greedy(m, base, comparison, links) && i < j < |links| && links[i] != -1
    ensures links[i] != links[j]
  {
    assert GreedyAt(m, base, comparison, links, j);
    assert links[..j][i] == links[i];
  }

  lemma {:induction false} CountsConcat(a: seq<Change>, b: seq<Change>)
    ensures CountRemoved(a + b) == CountRemoved(a) + CountRemoved(b)
    ensures CountAdded(a + b) == CountAdded(a) + CountAdded(b)
  {
    if b == [] {
      assert a + b == a;
    } else {
      var n := |b| - 1;
      assert (a + b)[..|a + b| - 1] == a + b[..n];
      CountsConcat(a, b[..n]);
    }
  }

  /** How many links are not -1. */
  function Matched(links: Links): nat {
    if links == [] then 0 else Matched(links[..|links| - 1]) + (if links[|links| - 1] == -1 then 0 else 1)
  }

  lemma {:induction false} RemovedAreUnmatched(m: Metric, base: seq<Term>, comparison: seq<Term>, links: Links)
    requires |links| <= |base| && InRange(comparison, links)
    ensures CountRemoved(BaseChanges(m, base, comparison, links)) == |links| - Matched(links)
    ensures CountAdded(BaseChanges(m, base, comparison, links)) == 0
  {
    if links != [] {
      var n := |links| - 1;
      RemovedAreUnmatched(m, base, comparison, links[..n]);
      var last := BaseChanges(m, base, comparison, links)[|BaseChanges(m, base, comparison, links[..n])|..];
      CountsConcat(BaseChanges(m, base, comparison, links[..n]), last);
      assert BaseChanges(m, base, comparison, links) == BaseChanges(m, base, comparison, links[..n]) + last;
      assert |last| <= 1 && (last != [] ==> last[..0] == []);
    }
  }

  ghost function TakenBelow(links: Links, n: nat): nat {
    if n == 0 then 0 else TakenBelow(links, n - 1) + (if n - 1 in links then 1 else 0)
  }

  lemma {:induction false} AddedAreUntaken(comparison: seq<Term>, links: Links, n: nat)
    requires n <= |comparison|
    ensures CountAdded(Additions(comparison, links, n)) == n - TakenBelow(links, n)
    ensures CountRemoved(Additions(comparison, links, n)) == 0
  {
    if n > 0 {
      AddedAreUntaken(comparison, links, n - 1);
      var last := if n - 1 in links then [] else [Added(comparison[n - 1])];
      CountsConcat(Additions(comparison, links, n - 1), last);
      assert last != [] ==> last[..0] == [];
    }
  }

  lemma {:induction false} TakenWithOneMore(links: Links, link: int, n: nat)
    requires link == -1 || link !in links
    ensures TakenBelow(links + [link], n) == TakenBelow(links, n) + (if 0 <= link < n then 1 else 0)
  {
    if n > 0 {
      TakenWithOneMore(links, link, n - 1);
    }
  }

  lemma {:induction false} NothingTaken(n: nat)
    ensures TakenBelow([], n) == 0
  {
    if n > 0 {
      NothingTaken(n - 1);
    }
  }

  lemma GreedyPrefix(m: Metric, base: seq<Term>, comparison: seq<Term>, links: Links)
    requires Greedy(m, base, comparison, links) && links != []
    ensures Greedy(m, base, comparison, links[..|links| - 1])
  {
    var n := |links| - 1;
    forall i | 0 <= i < n ensures GreedyAt(m, base, comparison, links[..n], i) {
      assert GreedyAt(m, base, comparison, links, i);
      assert links[..n][..i] == links[..i];
    }
  }

  lemma {:induction false} MatchedAreTaken(m: Metric, base: seq<Term>, comparison: seq<Term>, links: Links)
    requires Greedy(m, base, comparison, links)
    ensures TakenBelow(links, |comparison|) == Matched(links)
  {
    if links == [] {
      NothingTaken(|comparison|);
    } else {
      var n := |links| - 1;
      GreedyPrefix(m, base, comparison, links);
      MatchedAreTaken(m, base, comparison, links[..n]);
      assert GreedyAt(m, base, comparison, links, n);
      assert links == links[..n] + [links[n]];
      TakenWithOneMore(links[..n], links[n], |comparison|);
    }
  }

  /** Conservation: the base terms that were not removed are as many as the comparison terms not added. */
  lemma TermsAreConserved(m: Metric, base: seq<Term>, comparison: seq<Term>, links: Links)
    requires Greedy(m, base, comparison, links) && |links| == |base| && InRange(comparison, links)
    ensures var changes := Report(m, base, comparison, links);
            |base| - CountRemoved(changes) == |comparison| - CountAdded(changes)
  {
    RemovedAreUnmatched(m, base, comparison, links);
    AddedAreUntaken(comparison, links, |comparison|);
    MatchedAreTaken(m, base, comparison, links);
    CountsConcat(BaseChanges(m, base, comparison, links), Additions(comparison, links, |comparison|));
  }

  /**
   * A base term takes a comparison term exactly when one that is still free is similar enough, and
   * then a most similar one.
   */
  lemma TakesIffSimilar(m: Metric, base: seq<Term>, comparison: seq<Term>, links: Links, i: nat)
    requires Greedy(m, base, comparison, links) && i < |links|
    ensures links[i] != -1 <==>
            exists j :: Free(links[..i], |comparison|, j) && m.Similarity(base[i], comparison[j]) >= 0.52
    ensures links[i] != -1 ==>
              Free(links[..i], |comparison|, links[i]) && m.Similarity(base[i], comparison[links[i]]) >= 0.52 &&
              forall j | Free(links[..i], |comparison|, j) ::
                m.Similarity(base[i], comparison[j]) <= m.Similarity(base[i], comparison[links[i]])
  {
    assert GreedyAt(m, base, comparison, links, i);
  }

  /** The one it took goes unreported from a similarity of 0.985 on. */
  lemma SilentFrom(m: Metric, base: seq<Term>, comparison: seq<Term>, links: Links, i: nat)
    requires i < |links| <= |base| && -1 <= links[i] < |comparison|
    ensures Silent(m, base, comparison, links, i) <==>
            links[i] != -1 && m.Similarity(base[i], comparison[links[i]]) >= 0.985
  {
  }

  // Which terms are reported

  /** The base term took a nearly equal term. */
  predicate Silent(m: Metric, base: seq<Term>, comparison: seq<Term>, links: Links, i: nat)
    requires i < |links| <= |base| && -1 <= links[i] < |comparison|
  {
    links[i] != -1 && SAME <= m.Similarity(base[i], comparison[links[i]])
  }

  /** How many entries report the base term as removed or changed. */
  function EntriesFor(changes: seq<Change>, b: Term): nat {
    if changes == [] then 0
    else
      var last := changes[|changes| - 1];
      EntriesFor(changes[..|changes| - 1], b) + (if !last.Added? && last.base == b then 1 else 0)
  }

  /** How many of the first base terms are this one and took no nearly equal term. */
  ghost function Changes(m: Metric, base: seq<Term>, comparison: seq<Term>, links: Links, n: nat, b: Term): nat
    requires n <= |links| <= |base| && InRange(comparison, links)
  {
    if n == 0 then 0
    else Changes(m, base, comparison, links, n - 1, b) +
         (if base[n - 1] == b && !Silent(m, base, comparison, links, n - 1) then 1 else 0)
  }

  lemma {:induction false} EntriesConcat(a: seq<Change>, b: seq<Change>, t: Term)
    ensures EntriesFor(a + b, t) == EntriesFor(a, t) + EntriesFor(b, t)
  {
    if b == [] {
      assert a + b == a;
    } else {
      var n := |b| - 1;
      assert (a + b)[..|a + b| - 1] == a + b[..n];
      EntriesConcat(a, b[..n], t);
    }
  }

  lemma EntryOf(c: Change, b: Term)
    ensures EntriesFor([c], b) == (if !c.Added? && c.base == b then 1 else 0) && EntriesFor([], b) == 0
  {
    assert [c][..0] == [];
  }

  lemma {:induction false} AdditionsHaveNoBase(comparison: seq<Term>, links: Links, n: nat, b: Term)
    requires n <= |comparison|
    ensures EntriesFor(Additions(comparison, links, n), b) == 0
  {
    if n > 0 {
      AdditionsHaveNoBase(comparison, links, n - 1, b);
      EntryOf(Added(comparison[n - 1]), b);
      EntriesConcat(Additions(comparison, links, n - 1), if n - 1 in links then [] else [Added(comparison[n - 1])], b);
    }
  }

  lemma {:induction false} ChangesOfPrefix(
      m: Metric, base: seq<Term>, comparison: seq<Term>, links: Links, n: nat, k: nat, b: Term)
    requires k <= n <= |links| <= |base| && InRange(comparison, links)
    ensures Changes(m, base, comparison, links[..n], k, b) == Changes(m, base, comparison, links, k, b)
  {
    if k > 0 {
      ChangesOfPrefix(m, base, comparison, links, n, k - 1, b);
    }
  }

  lemma {:induction false} BaseEntries(m: Metric, base: seq<Term>, comparison: seq<Term>, links: Links, b: Term)
    requires |links| <= |base| && InRange(comparison, links)
    ensures EntriesFor(BaseChanges(m, base, comparison, links), b) == Changes(m, base, comparison, links, |links|, b)
  {
    if links != [] {
      var n := |links| - 1;
      var before := BaseChanges(m, base, comparison, links[..n]);
      BaseEntries(m, base, comparison, links[..n], b);
      ChangesOfPrefix(m, base, comparison, links, n, n, b);
      var last := BaseChanges(m, base, comparison, links)[|before|..];
      assert BaseChanges(m, base, comparison, links) == before + last;
      assert |last| <= 1 && (last == [] <==> Silent(m, base, comparison, links, n));
      assert last != [] ==> last == [last[0]] && !last[0].Added? && last[0].base == base[n];
      if last != [] {
        EntryOf(last[0], b);
      }
      EntriesConcat(before, last, b);
    }
  }

  // What each entry says, and in which order

  /** The indices are increasing. */
  ghost predicate Ascends(indices: seq<nat>) {
    forall i, j | 0 <= i < j < |indices| :: indices[i] < indices[j]
  }

  lemma AscendsWith(indices: seq<nat>, n: nat)
    requires Ascends(indices) && forall i | 0 <= i < |indices| :: indices[i] < n
    ensures Ascends(indices + [n])
  {
  }

  /**
   * Entry i of the additions is the comparison term of index i; these are in order, and are exactly
   * the untaken ones.
   */
  ghost predicate AddsExactly(comparison: seq<Term>, links: Links, n: nat, changes: seq<Change>, indices: seq<nat>)
    requires n <= |comparison|
  {
    |indices| == |changes| && Ascends(indices) &&
    (forall j :: j in indices <==> 0 <= j < n && j !in links) &&
    forall i | 0 <= i < |changes| :: indices[i] < n && changes[i] == Added(comparison[indices[i]])
  }

  lemma AddsOneMore(comparison: seq<Term>, links: Links, n: nat, changes: seq<Change>, indices: seq<nat>)
    requires n < |comparison| && AddsExactly(comparison, links, n, changes, indices)
    ensures if n in links then AddsExactly(comparison, links, n + 1, changes, indices)
            else AddsExactly(comparison, links, n + 1, changes + [Added(comparison[n])], indices + [n])
  {
    AscendsWith(indices, n);
    hide Ascends;
  }

  /** The comparison terms that no base term took are reported as added, once each and in document order. */
  lemma {:induction false} UntakenAreAdded(comparison: seq<Term>, links: Links, n: nat) returns (indices: seq<nat>)
    requires n <= |comparison|
    ensures AddsExactly(comparison, links, n, Additions(comparison, links, n), indices)
  {
    hide *;
    if n == 0 {
      indices := [];
      NothingAdded(comparison, links);
    } else {
      indices := UntakenAreAdded(comparison, links, n - 1);
      AddsOneMore(comparison, links, n - 1, Additions(comparison, links, n - 1), indices);
      AdditionsOneMore(comparison, links, n);
      if n - 1 !in links {
        indices := indices + [n - 1];
      }
    }
  }

  lemma NothingAdded(comparison: seq<Term>, links: Links)
    ensures AddsExactly(comparison, links, 0, Additions(comparison, links, 0), [])
  {
  }

  lemma AdditionsOneMore(comparison: seq<Term>, links: Links, n: nat)
    requires 0 < n <= |comparison|
    ensures Additions(comparison, links, n) ==
            if n - 1 in links then Additions(comparison, links, n - 1)
            else Additions(comparison, links, n - 1) + [Added(comparison[n - 1])]
  {
  }

  /**
   * Entry i of the changes is about the base term of index i: removed if it took none, else changed
   * into the very term it took.
   */
  ghost predicate ChangesExactly(
    m: Metric, base: seq<Term>, comparison: seq<Term>, links: Links, changes: seq<Change>, indices: seq<nat>)
    requires |links| <= |base| && InRange(comparison, links)
  {
    |indices| == |changes| && Ascends(indices) &&
    (forall j :: j in indices <==> 0 <= j < |links| && !Silent(m, base, comparison, links, j)) &&
    forall i | 0 <= i < |changes| :: indices[i] < |links| &&
        IsChangeOf(m, base, comparison, links, indices[i], changes[i])
  }

  ghost predicate IsChangeOf(m: Metric, base: seq<Term>, comparison: seq<Term>, links: Links, i: nat, c: Change)
    requires i < |links| <= |base| && InRange(comparison, links)
  {
    if links[i] == -1 then c == Removed(base[i])
    else c == Changed(base[i], comparison[links[i]], m.Similarity(base[i], comparison[links[i]]))
  }

  /** The base terms that took no nearly equal term are reported, once each and in document order. */
  lemma {:induction false} ChangedAreReported(m: Metric, base: seq<Term>, comparison: seq<Term>, links: Links)
    returns (indices: seq<nat>)
    requires |links| <= |base| && InRange(comparison, links)
    ensures ChangesExactly(m, base, comparison, links, BaseChanges(m, base, comparison, links), indices)
  {
    if links == [] {
      indices := [];
    } else {
      var n := |links| - 1;
      var before := BaseChanges(m, base, comparison, links[..n]);
      var earlier := ChangedAreReported(m, base, comparison, links[..n]);
      forall j | 0 <= j < n
        ensures Silent(m, base, comparison, links[..n], j) == Silent(m, base, comparison, links, j)
        ensures forall c ::
                  IsChangeOf(m, base, comparison, links[..n], j, c) == IsChangeOf(m, base, comparison, links, j, c)
      {
        assert links[..n][j] == links[j];
      }
      indices := earlier;
      if !Silent(m, base, comparison, links, n) {
        AscendsWith(earlier, n);
        indices := earlier + [n];
        assert IsChangeOf(m, base, comparison, links, n, BaseChanges(m, base, comparison, links)[|before|]);
      }
    }
  }

  /** How many entries report the comparison term as added. */
  function AddedFor(changes: seq<Change>, c: Term): nat {
    if changes == [] then 0
    else AddedFor(changes[..|changes| - 1], c) + (if changes[|changes| - 1] == Added(c) then 1 else 0)
  }

  /** How often the term stands at one of the first n indices that no base term took. */
  function Untaken(comparison: seq<Term>, links: Links, n: nat, c: Term): nat
    requires n <= |comparison|
  {
    if n == 0 then 0
    else Untaken(comparison, links, n - 1, c) + (if n - 1 !in links && comparison[n - 1] == c then 1 else 0)
  }

  lemma {:induction false} AddedConcat(a: seq<Change>, b: seq<Change>, c: Term)
    ensures AddedFor(a + b, c) == AddedFor(a, c) + AddedFor(b, c)
  {
    if b == [] {
      assert a + b == a;
    } else {
      var n := |b| - 1;
      assert (a + b)[..|a + b| - 1] == a + b[..n];
      AddedConcat(a, b[..n], c);
    }
  }

  lemma {:induction false} AddedInAdditions(comparison: seq<Term>, links: Links, n: nat, c: Term)
    requires n <= |comparison|
    ensures AddedFor(Additions(comparison, links, n), c) == Untaken(comparison, links, n, c)
  {
    if n > 0 {
      AddedInAdditions(comparison, links, n - 1, c);
      var last := if n - 1 in links then [] else [Added(comparison[n - 1])];
      AddedConcat(Additions(comparison, links, n - 1), last, c);
      assert last != [] ==> last[..0] == [];
    }
  }

  lemma {:induction false} BaseChangesAddNothing(
      m: Metric, base: seq<Term>, comparison: seq<Term>, links: Links, c: Term)
    requires |links| <= |base| && InRange(comparison, links)
    ensures AddedFor(BaseChanges(m, base, comparison, links), c) == 0
  {
    if links != [] {
      var n := |links| - 1;
      BaseChangesAddNothing(m, base, comparison, links[..n], c);
      var before := BaseChanges(m, base, comparison, links[..n]);
      var last := BaseChanges(m, base, comparison, links)[|before|..];
      assert BaseChanges(m, base, comparison, links) == before + last;
      AddedConcat(before, last, c);
      assert |last| <= 1 && (last != [] ==> !last[0].Added? && last[..0] == []);
    }
  }

  /** Each comparison term is reported as added as often as it stands where no base term took it. */
  lemma ReportedAsOftenAsUntaken(m: Metric, base: seq<Term>, comparison: seq<Term>, links: Links, c: Term)
    requires |links| == |base| && InRange(comparison, links)
    ensures AddedFor(Report(m, base, comparison, links), c) == Untaken(comparison, links, |comparison|, c)
  {
    BaseChangesAddNothing(m, base, comparison, links, c);
    AddedInAdditions(comparison, links, |comparison|, c);
    AddedConcat(BaseChanges(m, base, comparison, links), Additions(comparison, links, |comparison|), c);
  }

  /** The whole report: first what became of base terms, then what was added. */
  lemma ReportIsBoth(m: Metric, base: seq<Term>, comparison: seq<Term>, links: Links)
    returns (n: nat, changed: seq<nat>, added: seq<nat>)
    requires |links| == |base| && InRange(comparison, links)
    ensures n <= |Report(m, base, comparison, links)|
    ensures ChangesExactly(m, base, comparison, links, Report(m, base, comparison, links)[..n], changed)
    ensures AddsExactly(comparison, links, |comparison|, Report(m, base, comparison, links)[n..], added)
  {
    hide ChangesExactly, AddsExactly, Additions, BaseChanges;
    n := |BaseChanges(m, base, comparison, links)|;
    changed := ChangedAreReported(m, base, comparison, links);
    added := UntakenAreAdded(comparison, links, |comparison|);
    assert Report(m, base, comparison, links)[..n] == BaseChanges(m, base, comparison, links);
    assert Report(m, base, comparison, links)[n..] == Additions(comparison, links, |comparison|);
  }

  /** Each base term is reported as often as it stands in the document without taking a nearly equal term. */
  lemma ReportedAsOftenAsChanged(m: Metric, base: seq<Term>, comparison: seq<Term>, links: Links, b: Term)
    requires |links| == |base| && InRange(comparison, links)
    ensures EntriesFor(Report(m, base, comparison, links), b) == Changes(m, base, comparison, links, |base|, b)
  {
    BaseEntries(m, base, comparison, links, b);
    AdditionsHaveNoBase(comparison, links, |comparison|, b);
    EntriesConcat(BaseChanges(m, base, comparison, links), Additions(comparison, links, |comparison|), b);
  }

  lemma {:induction false} NoChangesIffSilent(
      m: Metric, base: seq<Term>, comparison: seq<Term>, links: Links, n: nat, b: Term)
    requires n <= |links| <= |base| && InRange(comparison, links)
    ensures Changes(m, base, comparison, links, n, b) == 0 <==>
            forall j | 0 <= j < n && base[j] == b :: Silent(m, base, comparison, links, j)
  {
    if n > 0 {
      NoChangesIffSilent(m, base, comparison, links, n - 1, b);
    }
  }

  /**
   * A base term is passed over in silence exactly when it took a nearly equal term, wherever that
   * very sentence stands on that page.
   */
  lemma SilentIffNearlyEqual(m: Metric, base: seq<Term>, comparison: seq<Term>, links: Links, i: nat)
    requires i < |links| == |base| && InRange(comparison, links)
    ensures EntriesFor(Report(m, base, comparison, links), base[i]) == 0 <==>
            forall j | 0 <= j < |base| && base[j] == base[i] :: Silent(m, base, comparison, links, j)
  {
    ReportedAsOftenAsChanged(m, base, comparison, links, base[i]);
    NoChangesIffSilent(m, base, comparison, links, |base|, base[i]);
  }

  lemma {:induction false} AllSilentMeansNothingReported(
      m: Metric, base: seq<Term>, comparison: seq<Term>, links: Links)
    requires |links| <= |base| && InRange(comparison, links)
    requires forall i | 0 <= i < |links| :: Silent(m, base, comparison, links, i)
    ensures BaseChanges(m, base, comparison, links) == []
  {
    if links != [] {
      var n := |links| - 1;
      forall i | 0 <= i < n ensures Silent(m, base, comparison, links[..n], i) {
        assert Silent(m, base, comparison, links, i) && links[..n][i] == links[i];
      }
      AllSilentMeansNothingReported(m, base, comparison, links[..n]);
      assert Silent(m, base, comparison, links, n);
    }
  }

  // A permuted document has not changed

  /** How often a folded text occurs among the terms. */
  function Occurrences(m: Metric, terms: seq<Term>, x: Text): nat {
    if terms == [] then 0
    else Occurrences(m, terms[..|terms| - 1], x) + (if m.fold(terms[|terms| - 1].text) == x then 1 else 0)
  }

  /** How often a folded text occurs among the comparison terms below n that are still free. */
  ghost function FreeOccurrences(m: Metric, comparison: seq<Term>, links: Links, n: nat, x: Text): nat
    requires n <= |comparison|
  {
    if n == 0 then 0
    else FreeOccurrences(m, comparison, links, n - 1, x) +
         (if n - 1 !in links && m.fold(comparison[n - 1].text) == x then 1 else 0)
  }

  lemma {:induction false} FreeAfterTaking(m: Metric, comparison: seq<Term>, links: Links, link: int, n: nat, x: Text)
    requires n <= |comparison| && 0 <= link < |comparison| && link !in links
    ensures FreeOccurrences(m, comparison, links + [link], n, x) ==
            FreeOccurrences(m, comparison, links, n, x) -
            (if link < n && m.fold(comparison[link].text) == x then 1 else 0)
  {
    if n > 0 {
      FreeAfterTaking(m, comparison, links, link, n - 1, x);
    }
  }

  lemma {:induction false} AllFreeAtFirst(m: Metric, comparison: seq<Term>, n: nat, x: Text)
    requires n <= |comparison|
    ensures FreeOccurrences(m, comparison, [], n, x) == Occurrences(m, comparison[..n], x)
  {
    if n > 0 {
      AllFreeAtFirst(m, comparison, n - 1, x);
      assert comparison[..n][..n - 1] == comparison[..n - 1];
    }
  }

  lemma {:induction false} SomeFree(m: Metric, comparison: seq<Term>, links: Links, n: nat, x: Text) returns (j: int)
    requires n <= |comparison| && FreeOccurrences(m, comparison, links, n, x) > 0
    ensures Free(links, n, j) && m.fold(comparison[j].text) == x
  {
    if n - 1 !in links && m.fold(comparison[n - 1].text) == x {
      j := n - 1;
    } else {
      j := SomeFree(m, comparison, links, n - 1, x);
    }
  }

  lemma {:induction false} NoneFree(m: Metric, comparison: seq<Term>, links: Links, n: nat, j: int)
    requires n <= |comparison| && Free(links, n, j)
    ensures FreeOccurrences(m, comparison, links, n, m.fold(comparison[j].text)) > 0
  {
    if j < n - 1 {
      NoneFree(m, comparison, links, n - 1, j);
    }
  }

  /** The two documents hold the same terms up to order, pages and case. */
  ghost predicate Permuted(m: Metric, base: seq<Term>, comparison: seq<Term>) {
    forall x :: Occurrences(m, base, x) == Occurrences(m, comparison, x)
  }

  ghost function RestOccurrences(m: Metric, base: seq<Term>, i: nat, x: Text): int
    requires i <= |base|
  {
    Occurrences(m, base, x) - Occurrences(m, base[..i], x)
  }

  lemma {:induction false} RestIsPositive(m: Metric, base: seq<Term>, i: nat)
    requires i < |base|
    ensures RestOccurrences(m, base, i, m.fold(base[i].text)) > 0
    decreases |base| - i
  {
    OccurrencesGrow(m, base, i + 1, |base|, m.fold(base[i].text));
    assert base[..i + 1][..i] == base[..i];
    assert base[..|base|] == base;
  }

  lemma {:induction false} OccurrencesGrow(m: Metric, base: seq<Term>, i: nat, j: nat, x: Text)
    requires i <= j <= |base|
    ensures Occurrences(m, base[..i], x) <= Occurrences(m, base[..j], x)
  {
    if i < j {
      OccurrencesGrow(m, base, i, j - 1, x);
      assert base[..j][..j - 1] == base[..j - 1];
    }
  }

  /** While every base term found its equal, what is left on both sides agrees. */
  lemma {:induction false} PermutedStep(m: Metric, base: seq<Term>, comparison: seq<Term>, links: Links, x: Text)
    requires m.Sound() && Permuted(m, base, comparison) && Greedy(m, base, comparison, links)
    ensures InRange(comparison, links)
    ensures FreeOccurrences(m, comparison, links, |comparison|, x) == RestOccurrences(m, base, |links|, x)
    ensures forall i | 0 <= i < |links| ::
              links[i] != -1 && m.fold(base[i].text) == m.fold(comparison[links[i]].text)
  {
    GreedyInRange(m, base, comparison, links);
    if links == [] {
      AllFreeAtFirst(m, comparison, |comparison|, x);
      assert comparison[..|comparison|] == comparison && base[..0] == [];
    } else {
      var n := |links| - 1;
      var mine := m.fold(base[n].text);
      GreedyPrefix(m, base, comparison, links);
      PermutedStep(m, base, comparison, links[..n], x);
      PermutedStep(m, base, comparison, links[..n], mine);
      RestIsPositive(m, base, n);
      var j := SomeFree(m, comparison, links[..n], |comparison|, mine);
      assert GreedyAt(m, base, comparison, links, n);
      assert m.Similarity(base[n], comparison[j]) == 1.0;
      assert links[n] != -1 && m.Similarity(base[n], comparison[links[n]]) == 1.0;
      assert links == links[..n] + [links[n]];
      FreeAfterTaking(m, comparison, links[..n], links[n], |comparison|, x);
      assert base[..n + 1][..n] == base[..n];
      forall i | 0 <= i < |links|
        ensures links[i] != -1 && m.fold(base[i].text) == m.fold(comparison[links[i]].text)
      {
        if i < n {
          assert links[..n][i] == links[i];
        }
      }
    }
  }

  lemma {:induction false} NoAdditions(comparison: seq<Term>, links: Links, n: nat)
    requires n <= |comparison| && forall j | 0 <= j < n :: j in links
    ensures Additions(comparison, links, n) == []
  {
    if n > 0 {
      NoAdditions(comparison, links, n - 1);
    }
  }

  /** Reordering a document, moving pages and changing case are no changes, in every walking order. */
  lemma PermutationHasNoChanges(m: Metric, base: seq<Term>, comparison: seq<Term>, links: Links)
    requires m.Sound() && Permuted(m, base, comparison)
    requires Greedy(m, base, comparison, links) && |links| == |base| && InRange(comparison, links)
    ensures Report(m, base, comparison, links) == []
  {
    PermutedStep(m, base, comparison, links, "");
    forall i | 0 <= i < |links| ensures Silent(m, base, comparison, links, i) {
    }
    AllSilentMeansNothingReported(m, base, comparison, links);
    assert base[..|links|] == base;
    forall j | 0 <= j < |comparison| ensures j in links {
      if j !in links {
        PermutedStep(m, base, comparison, links, m.fold(comparison[j].text));
        NoneFree(m, comparison, links, |comparison|, j);
      }
    }
    NoAdditions(comparison, links, |comparison|);
  }

  // The comparison

  /** The best of the remaining terms, walking the set in whatever order it comes. */
  method BestOf(m: Metric, b: Term, comparison: seq<Term>, remaining: set<nat>) returns (best: Option<nat>, ratio: real)
    requires m.Sound() && forall j | j in remaining :: 0 <= j < |comparison|
    ensures best.Some? ==> best.value in remaining && ratio == m.Similarity(b, comparison[best.value])
    ensures 0.0 <= ratio && forall j | j in remaining :: m.Similarity(b, comparison[j]) <= ratio
    ensures best.None? ==> ratio == 0.0
  {
    best, ratio := None, 0.0;
    var rest := remaining;
    while rest != {}
      invariant rest <= remaining && 0.0 <= ratio
      invariant best.Some? ==> best.value in remaining && ratio == m.Similarity(b, comparison[best.value])
      invariant best.None? ==> ratio == 0.0
      invariant forall j | j in remaining && j !in rest :: m.Similarity(b, comparison[j]) <= ratio
      decreases rest
    {
      var index :| index in rest;
      var similarity := m.Similarity(b, comparison[index]);
      if similarity > ratio {
        ratio, best := similarity, Some(index);
      }
      rest := rest - {index};
    }
  }

  function Indices(n: nat): (s: set<nat>)
    ensures forall j :: j in s <==> 0 <= j < n
  {
    if n == 0 then {} else Indices(n - 1) + {n - 1}
  }

  /** The comparison itself: its changes are the report of some greedy choice of links. */
  method CompareTerms(m: Metric, base: seq<Term>, comparison: seq<Term>)
    returns (changes: seq<Change>, links: Links)
    requires m.Sound()
    ensures Greedy(m, base, comparison, links) && |links| == |base| && InRange(comparison, links)
    ensures changes == Report(m, base, comparison, links)
  {
    var remaining := Indices(|comparison|);
    changes, links := [], [];
    for i := 0 to |base|
      invariant |links| == i && Greedy(m, base, comparison, links) && InRange(comparison, links)
      invariant forall j :: j in remaining <==> Free(links, |comparison|, j)
      invariant changes == BaseChanges(m, base, comparison, links)
    {
      var best, ratio := BestOf(m, base[i], comparison, remaining);
      var link := if best.None? || ratio < MATCHES then -1 else best.value;
      GreedyMore(m, base, comparison, links, link);
      assert (links + [link])[..i] == links;
      links := links + [link];
      if link == -1 {
        changes := changes + [Removed(base[i])];
      } else {
        remaining := remaining - {link};
        if ratio < SAME {
          changes := changes + [Changed(base[i], comparison[link], ratio)];
        }
      }
    }
    for j := 0 to |comparison|
      invariant changes == BaseChanges(m, base, comparison, links) + Additions(comparison, links, j)
    {
      if j in remaining {
        changes := changes + [Added(comparison[j])];
      }
    }
  }

  lemma GreedyMore(m: Metric, base: seq<Term>, comparison: seq<Term>, links: Links, link: int)
    requires Greedy(m, base, comparison, links) && |links| < |base|
    requires GreedyLink(m, base[|links|], comparison, links, link)
    ensures Greedy(m, base, comparison, links + [link])
  {
    forall i | 0 <= i <= |links| ensures GreedyAt(m, base, comparison, links + [link], i) {
      if i < |links| {
        assert GreedyAt(m, base, comparison, links, i);
        assert (links + [link])[..i] == links[..i];
      } else {
        assert (links + [link])[..i] == links;
      }
    }
  }
}
