/** The refresh of the analytics marts in dependency order, where failures spread to dependents. */
module MartRefresh {
  import opened Common

  type Mart = string

  type Dependencies = map<Mart, seq<Mart>>

  datatype Outcome = Refreshed | Raised | Skipped(failed: seq<Mart>)

  datatype Entry = Entry(mart: Mart, outcome: Outcome)

  const ORDER: seq<Mart> := [
    "market_value_metrics", "supplier_market_share", "market_hhi", "buyer_concentration", "supplier_dependency",
    "incumbent_signals", "contract_modification_stats", "cycle_time_metrics", "payment_execution", "renewal_signals"]

  const DEPENDENCIES: Dependencies := map[
    "market_hhi" := ["market_value_metrics", "supplier_market_share"],
    "renewal_signals" := ["cycle_time_metrics"]]

  function DependenciesOf(d: Dependencies, m: Mart): seq<Mart> {
    if m in d then d[m] else []
  }

  function FailedAmong(marts: seq<Mart>, failed: set<Mart>): seq<Mart> {
    if marts == [] then []
    else FailedAmong(marts[..|marts| - 1], failed) + (if marts[|marts| - 1] in failed then [marts[|marts| - 1]] else [])
  }

  lemma {:induction false} FailedAmongFacts(marts: seq<Mart>, failed: set<Mart>)
    ensures forall m :: m in FailedAmong(marts, failed) <==> m in marts && m in failed
    ensures FailedAmong(marts, failed) == [] <==> forall m | m in marts :: m !in failed
  {
    if marts != [] {
      FailedAmongFacts(marts[..|marts| - 1], failed);
      assert marts == marts[..|marts| - 1] + [marts[|marts| - 1]];
    }
  }

  /** Each mart stands once, after everything it depends on. */
  ghost predicate Topological(order: seq<Mart>, d: Dependencies) {
    NoRepeats(order) &&
    (forall i | 0 <= i < |order| :: ReadyAt(order, d, i))
  }

  ghost predicate ReadyAt(order: seq<Mart>, d: Dependencies, i: nat)
    requires i < |order|
  {
    forall m | m in DependenciesOf(d, order[i]) :: m in order[..i]
  }

  /** The order that is used satisfies the hypothesis. */
  lemma OrderIsTopological()
    ensures Topological(ORDER, DEPENDENCIES)
  {
    forall i | 0 <= i < |ORDER| ensures ReadyAt(ORDER, DEPENDENCIES, i) {
      if i == 2 {
        assert ORDER[..2][0] == "market_value_metrics" && ORDER[..2][1] == "supplier_market_share";
      } else if i == 9 {
        assert ORDER[..9][7] == "cycle_time_metrics";
      } else {
        assert ORDER[i] != "market_hhi" && ORDER[i] != "renewal_signals" by {
          DifferentNames();
        }
      }
    }
    DifferentNames();
  }

  lemma DifferentNames()
    ensures NoRepeats(ORDER)
  {
    assert |ORDER[0]| == 20 && |ORDER[1]| == 21 && |ORDER[2]| == 10 && |ORDER[3]| == 19 && |ORDER[4]| == 19;
    assert |ORDER[5]| == 17 && |ORDER[6]| == 27 && |ORDER[7]| == 18 && |ORDER[8]| == 17 && |ORDER[9]| == 15;
    assert ORDER[3][0] == 'b' && ORDER[4][0] == 's' && ORDER[5][0] == 'i' && ORDER[8][0] == 'p';
  }

  // What failure means

  /** A chain of dependencies, each mart depending on the next. */
  ghost predicate Chain(d: Dependencies, path: seq<Mart>) {
    path != [] && forall i | 0 <= i < |path| - 1 :: path[i + 1] in DependenciesOf(d, path[i])
  }

  /** The mart itself, or something it depends on over any number of steps, fails to refresh. */
  ghost predicate Tainted(d: Dependencies, raises: set<Mart>, m: Mart) {
    exists path :: Chain(d, path) && path[0] == m && path[|path| - 1] in raises
  }

  /** Something the mart depends on, directly or not, fails to refresh. */
  ghost predicate TaintedBelow(d: Dependencies, raises: set<Mart>, m: Mart) {
    exists n :: n in DependenciesOf(d, m) && Tainted(d, raises, n)
  }

  lemma TaintSpreads(d: Dependencies, raises: set<Mart>, m: Mart)
    ensures Tainted(d, raises, m) <==> m in raises || TaintedBelow(d, raises, m)
  {
    if m in raises {
      assert Chain(d, [m]);
    }
    if TaintedBelow(d, raises, m) {
      TaintRises(d, raises, m);
    }
    if Tainted(d, raises, m) && m !in raises {
      TaintComesFromBelow(d, raises, m);
    }
  }

  lemma TaintRises(d: Dependencies, raises: set<Mart>, m: Mart)
    requires TaintedBelow(d, raises, m)
    ensures Tainted(d, raises, m)
  {
    var n :| n in DependenciesOf(d, m) && Tainted(d, raises, n);
    var path :| Chain(d, path) && path[0] == n && path[|path| - 1] in raises;
    var longer := [m] + path;
    forall i | 0 <= i < |longer| - 1 ensures longer[i + 1] in DependenciesOf(d, longer[i]) {
      assert i > 0 ==> longer[i] == path[i - 1] && longer[i + 1] == path[i];
    }
    assert Chain(d, longer);
  }

  lemma TaintComesFromBelow(d: Dependencies, raises: set<Mart>, m: Mart)
    requires Tainted(d, raises, m) && m !in raises
    ensures TaintedBelow(d, raises, m)
  {
    var path :| Chain(d, path) && path[0] == m && path[|path| - 1] in raises;
    var rest := path[1..];
    forall i | 0 <= i < |rest| - 1 ensures rest[i + 1] in DependenciesOf(d, rest[i]) {
      assert rest[i] == path[i + 1] && rest[i + 1] == path[i + 1 + 1];
      assert path[(i + 1) + 1] in DependenciesOf(d, path[i + 1]);
    }
    assert path[0 + 1] in DependenciesOf(d, path[0]);
    assert Chain(d, rest) && Tainted(d, raises, rest[0]);
  }

  /** Which marts the source makes depend on which. */
  lemma DependsOn(m: Mart, n: Mart)
    ensures n in DependenciesOf(DEPENDENCIES, m) <==>
            (m == "market_hhi" && (n == "market_value_metrics" || n == "supplier_market_share")) ||
            (m == "renewal_signals" && n == "cycle_time_metrics")
  {
    assert |"market_hhi"| == 10 && |"renewal_signals"| == 15;
  }

  /** What something depends on depends on nothing itself. */
  lemma FailsAlone(raises: set<Mart>, m: Mart)
    requires m != "market_hhi" && m != "renewal_signals"
    ensures Tainted(DEPENDENCIES, raises, m) <==> m in raises
  {
    hide Tainted, DependenciesOf;
    TaintSpreads(DEPENDENCIES, raises, m);
    forall n ensures n !in DependenciesOf(DEPENDENCIES, m) {
      DependsOn(m, n);
    }
  }

  /** Which of the marts fail, or are skipped, for which failures. */
  lemma WhichMartsFail(raises: set<Mart>, m: Mart)
    ensures Tainted(DEPENDENCIES, raises, m) <==>
            m in raises ||
            (m == "market_hhi" && ("market_value_metrics" in raises || "supplier_market_share" in raises)) ||
            (m == "renewal_signals" && "cycle_time_metrics" in raises)
  {
    hide Tainted, DependenciesOf;
    assert |"market_value_metrics"| == 20 && |"supplier_market_share"| == 21 && |"cycle_time_metrics"| == 18;
    assert |"market_hhi"| == 10 && |"renewal_signals"| == 15;
    TaintSpreads(DEPENDENCIES, raises, m);
    DependsOn(m, "market_value_metrics");
    DependsOn(m, "supplier_market_share");
    DependsOn(m, "cycle_time_metrics");
    FailsAlone(raises, "market_value_metrics");
    FailsAlone(raises, "supplier_market_share");
    FailsAlone(raises, "cycle_time_metrics");
    forall n | n in DependenciesOf(DEPENDENCIES, m)
      ensures n == "market_value_metrics" || n == "supplier_market_share" || n == "cycle_time_metrics"
    {
      DependsOn(m, n);
    }
  }

  // The pass

  function OutcomeOf(d: Dependencies, raises: set<Mart>, failed: set<Mart>, m: Mart): Outcome {
    var failedDependencies := FailedAmong(DependenciesOf(d, m), failed);
    if failedDependencies != [] then Skipped(failedDependencies)
    else if m in raises then Raised
    else Refreshed
  }

  /** The outcome tells exactly why: skipped for failed dependencies, which it names, or its own failure, or neither. */
  ghost predicate RightEntry(d: Dependencies, raises: set<Mart>, e: Entry) {
    (e.outcome.Refreshed? <==> !Tainted(d, raises, e.mart)) &&
    (e.outcome.Skipped? <==> TaintedBelow(d, raises, e.mart)) &&
    (e.outcome.Raised? <==> e.mart in raises && !TaintedBelow(d, raises, e.mart)) &&
    (e.outcome.Skipped? ==>
       forall n :: n in e.outcome.failed <==> n in DependenciesOf(d, e.mart) && Tainted(d, raises, n))
  }

  /** After the first n marts the failed set holds exactly the tainted ones among them. */
  ghost predicate Knows(failed: set<Mart>, order: seq<Mart>, d: Dependencies, raises: set<Mart>, n: nat)
    requires n <= |order|
  {
    forall m :: m in failed <==> m in order[..n] && Tainted(d, raises, m)
  }

  lemma StepIsRight(order: seq<Mart>, d: Dependencies, raises: set<Mart>, failed: set<Mart>, n: nat)
    requires n < |order| && ReadyAt(order, d, n) && Knows(failed, order, d, raises, n)
    ensures RightEntry(d, raises, Entry(order[n], OutcomeOf(d, raises, failed, order[n])))
    ensures OutcomeOf(d, raises, failed, order[n]).Refreshed? <==> !Tainted(d, raises, order[n])
  {
    var m := order[n];
    var dependencies := DependenciesOf(d, m);
    TaintSpreads(d, raises, m);
    FailedAmongFacts(dependencies, failed);
    hide Tainted, FailedAmong, DependenciesOf;
    assert forall k | k in dependencies :: k in failed <==> Tainted(d, raises, k);
  }

  lemma StepKnows(order: seq<Mart>, d: Dependencies, raises: set<Mart>, failed: set<Mart>, n: nat)
    requires n < |order| && Knows(failed, order, d, raises, n)
    ensures Knows(if Tainted(d, raises, order[n]) then failed + {order[n]} else failed, order, d, raises, n + 1)
  {
    hide Tainted;
    assert order[..n + 1] == order[..n] + [order[n]];
  }

  /** One right entry for each of the first marts, in order. */
  ghost predicate Reports(entries: seq<Entry>, order: seq<Mart>, d: Dependencies, raises: set<Mart>) {
    |entries| <= |order| &&
    forall k | 0 <= k < |entries| :: entries[k].mart == order[k] && RightEntry(d, raises, entries[k])
  }

  lemma ReportsOneMore(entries: seq<Entry>, e: Entry, order: seq<Mart>, d: Dependencies, raises: set<Mart>)
    requires Reports(entries, order, d, raises) && |entries| < |order|
    requires e.mart == order[|entries|] && RightEntry(d, raises, e)
    ensures Reports(entries + [e], order, d, raises)
  {
    hide RightEntry;
  }

  lemma NothingYet(order: seq<Mart>, d: Dependencies, raises: set<Mart>)
    requires Topological(order, d)
    ensures Reports([], order, d, raises) && Knows({}, order, d, raises, 0)
    ensures forall i | 0 <= i < |order| :: ReadyAt(order, d, i)
  {
  }

  /** One pass: `raises` are the marts whose refresh would raise when it is attempted. */
  method RefreshAll(order: seq<Mart>, d: Dependencies, raises: set<Mart>, locked: bool) returns (entries: seq<Entry>)
    requires Topological(order, d)
    ensures if locked then |entries| == |order| && Reports(entries, order, d, raises) else entries == []
  {
    hide *;
    entries := [];
    if !locked {
      return;
    }
    var failed: set<Mart> := {};
    NothingYet(order, d, raises);
    for i := 0 to |order|
      invariant |entries| == i && Reports(entries, order, d, raises)
      invariant Knows(failed, order, d, raises, i)
    {
      var outcome := OutcomeOf(d, raises, failed, order[i]);
      StepIsRight(order, d, raises, failed, i);
      StepKnows(order, d, raises, failed, i);
      ReportsOneMore(entries, Entry(order[i], outcome), order, d, raises);
      entries := entries + [Entry(order[i], outcome)];
      if !outcome.Refreshed? {
        failed := failed + {order[i]};
      }
    }
  }
}
