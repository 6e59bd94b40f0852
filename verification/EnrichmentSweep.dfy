/** The enrichment sweep: round-robin selection within budgets, and the accounting of its outcomes. */
module EnrichmentSweep {
  import opened Common
  import opened EnrichmentQueue

  type Provider = string

  /** How the dispatched provider call ends. */
  datatype Outcome =
    | CircuitOpen(retryAfter: int)
    | ConfigurationError
    | UpstreamError
    | PermanentError
    | OtherError
    | Success(externalCall: bool)

  /** What one turn of the loop finds: no job, or a job, its outcome and the jobs blocked along with it. */
  datatype Reply = NoJob | Ran(outcome: Outcome, bulk: nat)

  datatype Label = CircuitDeferred | ConfigBlocked | UpstreamBlocked | DiedOf | FailedWith | SucceededWith

  datatype TallyKey = TallyKey(provider: Provider, tag: Label)

  datatype Plan = Plan(order: seq<Provider>, budgets: map<Provider, int>)

  datatype Sweep = Sweep(
    cursor: nat, exhausted: set<Provider>, unavailable: set<Provider>, attempts: map<Provider, nat>,
    claimed: nat, succeeded: nat, failed: nat, blocked: nat, upstreamBlocked: nat,
    tally: map<TallyKey, nat>)

  // Selection

  function Attempts(s: Sweep, p: Provider): nat {
    if p in s.attempts then s.attempts[p] else 0
  }

  predicate Eligible(plan: Plan, s: Sweep, p: Provider) {
    p !in s.exhausted && p !in s.unavailable && (p in plan.budgets ==> Attempts(s, p) < plan.budgets[p])
  }

  /** The index of the first eligible provider at or after the given offset from the cursor. */
  function Pick(plan: Plan, s: Sweep, offset: nat): (index: Option<nat>)
    requires offset <= |plan.order|
    ensures index.Some? ==> index.value < |plan.order| && Eligible(plan, s, plan.order[index.value])
    decreases |plan.order| - offset
  {
    if offset == |plan.order| then None
    else
      var index := (s.cursor + offset) % |plan.order|;
      if Eligible(plan, s, plan.order[index]) then Some(index) else Pick(plan, s, offset + 1)
  }

  function Selected(plan: Plan, s: Sweep): (index: Option<nat>)
    ensures index.Some? ==> index.value < |plan.order| && Eligible(plan, s, plan.order[index.value])
  {
    Pick(plan, s, 0)
  }

  // One turn

  function Count(tally: map<TallyKey, nat>, p: Provider, tag: Label): nat {
    if TallyKey(p, tag) in tally then tally[TallyKey(p, tag)] else 0
  }

  function Increment(tally: map<TallyKey, nat>, p: Provider, tag: Label, amount: nat): map<TallyKey, nat> {
    tally[TallyKey(p, tag) := Count(tally, p, tag) + amount]
  }

  function Counted(s: Sweep, p: Provider): Sweep {
    s.(attempts := s.attempts[p := Attempts(s, p) + 1])
  }

  /** The bookkeeping of one outcome for a job of provider p. */
  function Book(s: Sweep, p: Provider, outcome: Outcome, bulk: nat): Sweep {
    match outcome
    case CircuitOpen(_) =>
      s.(tally := Increment(s.tally, p, CircuitDeferred, 1), exhausted := s.exhausted + {p})
    case ConfigurationError =>
      Counted(s, p).(blocked := s.blocked + 1, tally := Increment(s.tally, p, ConfigBlocked, 1))
    case UpstreamError =>
      Counted(s, p).(upstreamBlocked := s.upstreamBlocked + 1 + bulk, unavailable := s.unavailable + {p},
                     tally := Increment(s.tally, p, UpstreamBlocked, 1 + bulk))
    case PermanentError =>
      Counted(s, p).(failed := s.failed + 1, tally := Increment(s.tally, p, DiedOf, 1))
    case OtherError =>
      Counted(s, p).(failed := s.failed + 1, tally := Increment(s.tally, p, FailedWith, 1))
    case Success(externalCall) =>
      (if externalCall then Counted(s, p) else s).(
        succeeded := s.succeeded + 1, tally := Increment(s.tally, p, SucceededWith, 1))
  }

  function Turn(plan: Plan, s: Sweep, reply: Reply): Sweep
    requires Selected(plan, s).Some?
  {
    var index := Selected(plan, s).value;
    var p := plan.order[index];
    var moved := s.(cursor := (index + 1) % |plan.order|);
    match reply
    case NoJob => moved.(exhausted := s.exhausted + {p})
    case Ran(outcome, bulk) => Book(moved.(claimed := s.claimed + 1), p, outcome, bulk)
  }

  // Runs

  /** The sweep after k turns; once no provider can be selected it no longer changes. */
  ghost function State(plan: Plan, start: Sweep, replies: seq<Reply>, k: nat): Sweep
    requires k <= |replies|
  {
    if k == 0 then start
    else
      var s := State(plan, start, replies, k - 1);
      if Selected(plan, s).Some? then Turn(plan, s, replies[k - 1]) else s
  }

  /** Turn k happens: the loop has not stopped before. */
  ghost predicate Happens(plan: Plan, start: Sweep, replies: seq<Reply>, k: nat)
    requires k < |replies|
  {
    Selected(plan, State(plan, start, replies, k)).Some?
  }

  /** The provider index that turn k selects. */
  ghost function Choice(plan: Plan, start: Sweep, replies: seq<Reply>, k: nat): (index: nat)
    requires k < |replies| && Happens(plan, start, replies, k)
    ensures index < |plan.order|
  {
    Selected(plan, State(plan, start, replies, k)).value
  }

  // Fairness

  lemma ModStep(a: nat, n: nat)
    requires n > 0 && a < 2 * n
    ensures a % n == if a < n then a else a - n
  {
    if a >= n {
      assert a == 1 * n + (a - n);
    }
  }

  function Next(index: nat, n: nat): nat { if index + 1 == n then 0 else index + 1 }

  lemma CursorMoves(cursor: nat, offset: nat, n: nat)
    requires cursor < n && offset < n
    ensures (cursor + offset + 1) % n == Next((cursor + offset) % n, n) == ((cursor + offset) % n + 1) % n
  {
    ModStep(cursor + offset, n);
    ModStep(cursor + offset + 1, n);
    ModStep((cursor + offset) % n + 1, n);
  }

  /** 1 while the cursor has passed p but not yet q, for p before q in the provider order. */
  function Lead(p: nat, q: nat, cursor: nat): int { if p < cursor <= q then 1 else 0 }

  function Hit(index: nat, p: nat): int { if index == p then 1 else 0 }

  lemma LeadStep(p: nat, q: nat, index: nat, n: nat)
    requires p < q < n && index < n
    ensures Lead(p, q, Next(index, n)) - Lead(p, q, index) == Hit(index, p) - Hit(index, q)
  {
  }

  /** A selection shifts the lead of p over q by exactly what it gives to either of them. */
  lemma {:induction false} PickShiftsLead(plan: Plan, s: Sweep, offset: nat, p: nat, q: nat)
    requires offset < |plan.order| && s.cursor < |plan.order| && p < q < |plan.order|
    requires Eligible(plan, s, plan.order[p]) && Eligible(plan, s, plan.order[q])
    requires Pick(plan, s, offset).Some?
    ensures var index := Pick(plan, s, offset).value;
            Lead(p, q, (index + 1) % |plan.order|) - Lead(p, q, (s.cursor + offset) % |plan.order|) ==
            Hit(index, p) - Hit(index, q)
    decreases |plan.order| - offset
  {
    var n := |plan.order|;
    var here := (s.cursor + offset) % n;
    CursorMoves(s.cursor, offset, n);
    LeadStep(p, q, here, n);
    if !Eligible(plan, s, plan.order[here]) {
      assert here != p && here != q;
      PickShiftsLead(plan, s, offset + 1, p, q);
    }
  }

  /** The loop stops before its limit only when no provider is eligible any more. */
  lemma {:induction false} NoneSelectedIffNoneEligible(plan: Plan, s: Sweep)
    requires s.cursor < |plan.order|
    ensures Selected(plan, s).None? <==> forall p | p in plan.order :: !Eligible(plan, s, p)
  {
    if Selected(plan, s).None? {
      forall i | 0 <= i < |plan.order| ensures !Eligible(plan, s, plan.order[i]) {
        var n := |plan.order|;
        var offset := if s.cursor <= i then i - s.cursor else i + n - s.cursor;
        ModStep(s.cursor + offset, n);
        PickPasses(plan, s, 0, offset);
      }
    }
  }

  lemma {:induction false} PickPasses(plan: Plan, s: Sweep, from: nat, offset: nat)
    requires s.cursor < |plan.order| && from <= offset < |plan.order| && Pick(plan, s, from).None?
    ensures !Eligible(plan, s, plan.order[(s.cursor + offset) % |plan.order|])
    decreases offset - from
  {
    if from < offset {
      PickPasses(plan, s, from + 1, offset);
    }
  }

  lemma TurnShrinks(plan: Plan, s: Sweep, reply: Reply, p: Provider)
    requires Selected(plan, s).Some? && Eligible(plan, Turn(plan, s, reply), p)
    ensures Eligible(plan, s, p)
  {
    hide Pick;
  }

  lemma TurnMovesCursor(plan: Plan, s: Sweep, reply: Reply)
    requires Selected(plan, s).Some?
    ensures Turn(plan, s, reply).cursor == (Selected(plan, s).value + 1) % |plan.order| < |plan.order|
  {
    hide Pick;
  }

  /** Eligibility only shrinks during a sweep. */
  lemma {:induction false} EligibilityShrinks(
      plan: Plan, start: Sweep, replies: seq<Reply>, j: nat, k: nat, p: Provider)
    requires j <= k <= |replies| && Eligible(plan, State(plan, start, replies, k), p)
    ensures Eligible(plan, State(plan, start, replies, j), p)
  {
    if j < k {
      hide Eligible, Turn, Selected;
      var s := State(plan, start, replies, k - 1);
      if Selected(plan, s).Some? {
        TurnShrinks(plan, s, replies[k - 1], p);
      }
      EligibilityShrinks(plan, start, replies, j, k - 1, p);
    }
  }

  lemma {:induction false} CursorInRange(plan: Plan, start: Sweep, replies: seq<Reply>, k: nat)
    requires k <= |replies| && start.cursor < |plan.order|
    ensures State(plan, start, replies, k).cursor < |plan.order|
  {
    hide Turn, Selected;
    if k > 0 {
      CursorInRange(plan, start, replies, k - 1);
      var s := State(plan, start, replies, k - 1);
      if Selected(plan, s).Some? {
        TurnMovesCursor(plan, s, replies[k - 1]);
      }
    }
  }

  /** How often the turns a, ..., b - 1 select the provider with index p. */
  ghost function Selections(plan: Plan, start: Sweep, replies: seq<Reply>, a: nat, b: nat, p: nat): nat
    requires a <= b <= |replies|
  {
    if a == b then 0
    else Selections(plan, start, replies, a, b - 1, p) +
         (if Happens(plan, start, replies, b - 1) then Hit(Choice(plan, start, replies, b - 1), p) else 0)
  }

  /** The balance of one turn in which both providers are eligible. */
  lemma TurnShiftsLead(plan: Plan, s: Sweep, reply: Reply, p: nat, q: nat)
    requires s.cursor < |plan.order| && p < q < |plan.order|
    requires Eligible(plan, s, plan.order[p]) && Eligible(plan, s, plan.order[q])
    ensures Selected(plan, s).Some?
    ensures Lead(p, q, Turn(plan, s, reply).cursor) - Lead(p, q, s.cursor) ==
            Hit(Selected(plan, s).value, p) - Hit(Selected(plan, s).value, q)
  {
    hide Eligible, Pick, Book;
    NoneSelectedIffNoneEligible(plan, s);
    PickShiftsLead(plan, s, 0, p, q);
    TurnMovesCursor(plan, s, reply);
    ModStep(s.cursor, |plan.order|);
  }

  /**
   * The exact balance: while two providers stay eligible, the difference of their selection
   * counts is the difference of two cursor leads, hence -1, 0 or 1.
   */
  lemma {:induction false} SelectionBalance(
      plan: Plan, start: Sweep, replies: seq<Reply>, a: nat, b: nat, p: nat, q: nat)
    requires a <= b <= |replies| && start.cursor < |plan.order| && p < q < |plan.order|
    requires a < b ==> Eligible(plan, State(plan, start, replies, b - 1), plan.order[p])
    requires a < b ==> Eligible(plan, State(plan, start, replies, b - 1), plan.order[q])
    ensures Selections(plan, start, replies, a, b, p) - Selections(plan, start, replies, a, b, q) ==
            Lead(p, q, State(plan, start, replies, b).cursor) - Lead(p, q, State(plan, start, replies, a).cursor)
  {
    hide Eligible, Turn, Selected, Lead;
    if a < b {
      if a < b - 1 {
        EligibilityShrinks(plan, start, replies, b - 2, b - 1, plan.order[p]);
        EligibilityShrinks(plan, start, replies, b - 2, b - 1, plan.order[q]);
      }
      SelectionBalance(plan, start, replies, a, b - 1, p, q);
      CursorInRange(plan, start, replies, b - 1);
      TurnShiftsLead(plan, State(plan, start, replies, b - 1), replies[b - 1], p, q);
    }
  }

  /** Over any stretch in which two providers stay eligible, neither is selected twice more than the other. */
  lemma SelectionsDifferByAtMostOne(plan: Plan, start: Sweep, replies: seq<Reply>, a: nat, b: nat, p: nat, q: nat)
    requires a < b <= |replies| && start.cursor < |plan.order| && p < |plan.order| && q < |plan.order|
    requires Eligible(plan, State(plan, start, replies, b - 1), plan.order[p])
    requires Eligible(plan, State(plan, start, replies, b - 1), plan.order[q])
    ensures -1 <= Selections(plan, start, replies, a, b, p) - Selections(plan, start, replies, a, b, q) <= 1
  {
    hide Eligible, State, Selections;
    if p < q {
      SelectionBalance(plan, start, replies, a, b, p, q);
    } else if q < p {
      SelectionBalance(plan, start, replies, a, b, q, p);
    }
  }

  lemma ChoiceMovesCursor(plan: Plan, start: Sweep, replies: seq<Reply>, k: nat)
    requires k < |replies| && Happens(plan, start, replies, k)
    ensures State(plan, start, replies, k + 1).cursor == (Choice(plan, start, replies, k) + 1) % |plan.order|
    ensures Eligible(plan, State(plan, start, replies, k), plan.order[Choice(plan, start, replies, k)])
  {
    hide Pick, Turn;
    TurnMovesCursor(plan, State(plan, start, replies, k), replies[k]);
  }

  /**
   * Round robin: between two selections of p with none in between, every provider that is
   * still eligible at the second is selected exactly once.
   */
  lemma OnceBetweenSelections(plan: Plan, start: Sweep, replies: seq<Reply>, i: nat, j: nat, p: nat, q: nat)
    requires i < j < |replies| && start.cursor < |plan.order|
    requires Happens(plan, start, replies, i) && Choice(plan, start, replies, i) == p
    requires Happens(plan, start, replies, j) && Choice(plan, start, replies, j) == p
    requires Selections(plan, start, replies, i + 1, j, p) == 0
    requires q < |plan.order| && q != p && Eligible(plan, State(plan, start, replies, j), plan.order[q])
    ensures Selections(plan, start, replies, i + 1, j, q) == 1
  {
    hide Eligible, State, Choice, Happens, Selections, Lead;
    ChoiceMovesCursor(plan, start, replies, i);
    ChoiceMovesCursor(plan, start, replies, j);
    SelectionsAdd(plan, start, replies, i + 1, j, p);
    SelectionsAdd(plan, start, replies, i + 1, j, q);
    if p < q {
      SelectionBalance(plan, start, replies, i + 1, j + 1, p, q);
    } else {
      SelectionBalance(plan, start, replies, i + 1, j + 1, q, p);
    }
  }

  lemma SelectionsAdd(plan: Plan, start: Sweep, replies: seq<Reply>, a: nat, j: nat, p: nat)
    requires a <= j < |replies| && Happens(plan, start, replies, j)
    ensures Selections(plan, start, replies, a, j + 1, p) ==
            Selections(plan, start, replies, a, j, p) + Hit(Choice(plan, start, replies, j), p)
  {
  }

  // Accounting

  /** How often the first k turns end with an outcome of the given class. */
  ghost function Ended(plan: Plan, start: Sweep, replies: seq<Reply>, k: nat, tag: Label): nat
    requires k <= |replies|
  {
    if k == 0 then 0
    else Ended(plan, start, replies, k - 1, tag) +
         (if Happens(plan, start, replies, k - 1) && replies[k - 1].Ran? && LabelOf(replies[k - 1].outcome) == tag
          then 1 else 0)
  }

  /** The jobs that were blocked in bulk by upstream errors of the first k turns. */
  ghost function Bulk(plan: Plan, start: Sweep, replies: seq<Reply>, k: nat): nat
    requires k <= |replies|
  {
    if k == 0 then 0
    else Bulk(plan, start, replies, k - 1) +
         (if Happens(plan, start, replies, k - 1) && replies[k - 1].Ran? && replies[k - 1].outcome.UpstreamError?
          then replies[k - 1].bulk else 0)
  }

  function LabelOf(outcome: Outcome): Label {
    match outcome
    case CircuitOpen(_) => CircuitDeferred
    case ConfigurationError => ConfigBlocked
    case UpstreamError => UpstreamBlocked
    case PermanentError => DiedOf
    case OtherError => FailedWith
    case Success(_) => SucceededWith
  }

  function One(c: bool): nat { if c then 1 else 0 }

  lemma TurnBooks(plan: Plan, s: Sweep, reply: Reply)
    requires Selected(plan, s).Some?
    ensures var t := Turn(plan, s, reply);
            if reply.NoJob? then
              t.claimed == s.claimed && t.succeeded == s.succeeded && t.failed == s.failed &&
              t.blocked == s.blocked && t.upstreamBlocked == s.upstreamBlocked
            else
              var tag := LabelOf(reply.outcome);
              t.claimed == s.claimed + 1 &&
              t.succeeded == s.succeeded + One(tag == SucceededWith) &&
              t.failed == s.failed + One(tag == FailedWith || tag == DiedOf) &&
              t.blocked == s.blocked + One(tag == ConfigBlocked) &&
              t.upstreamBlocked == s.upstreamBlocked + if tag == UpstreamBlocked then 1 + reply.bulk else 0
  {
    hide Pick, Eligible;
  }

  /** Every claimed job ends in exactly one class, and the counters are those classes. */
  lemma {:induction false} TotalsAreOutcomes(plan: Plan, start: Sweep, replies: seq<Reply>, k: nat)
    requires k <= |replies|
    requires start.claimed == start.succeeded == start.failed == start.blocked == 0
    ensures var s := State(plan, start, replies, k);
            s.claimed <= k &&
            s.succeeded == Ended(plan, start, replies, k, SucceededWith) &&
            s.failed == Ended(plan, start, replies, k, FailedWith) + Ended(plan, start, replies, k, DiedOf) &&
            s.blocked == Ended(plan, start, replies, k, ConfigBlocked) &&
            s.upstreamBlocked == start.upstreamBlocked +
                                 Ended(plan, start, replies, k, UpstreamBlocked) + Bulk(plan, start, replies, k) &&
            s.claimed == s.succeeded + s.failed + s.blocked +
                         Ended(plan, start, replies, k, UpstreamBlocked) +
                         Ended(plan, start, replies, k, CircuitDeferred)
  {
    hide Turn, Selected, Pick, Eligible;
    if k > 0 {
      TotalsAreOutcomes(plan, start, replies, k - 1);
      var s := State(plan, start, replies, k - 1);
      if Selected(plan, s).Some? {
        TurnBooks(plan, s, replies[k - 1]);
      }
    }
  }

  // What a budget buys

  /** The reply costs an attempt: the call failed, but not for an open circuit, or succeeded and went out. */
  predicate Costs(reply: Reply) {
    reply.Ran? &&
    match reply.outcome
    case CircuitOpen(_) => false
    case Success(externalCall) => externalCall
    case _ => true
  }

  /** The reply ends the provider's part in the sweep. */
  predicate Ends(reply: Reply) {
    reply.NoJob? || reply.outcome.CircuitOpen? || reply.outcome.UpstreamError?
  }

  /** Turn k is one of provider p. */
  ghost predicate TurnOf(plan: Plan, start: Sweep, replies: seq<Reply>, k: nat, p: Provider)
    requires k < |replies|
  {
    Happens(plan, start, replies, k) && plan.order[Choice(plan, start, replies, k)] == p
  }

  /** How many of the first k turns were p's and cost an attempt. */
  ghost function Spent(plan: Plan, start: Sweep, replies: seq<Reply>, k: nat, p: Provider): nat
    requires k <= |replies|
  {
    if k == 0 then 0
    else Spent(plan, start, replies, k - 1, p) +
         (if TurnOf(plan, start, replies, k - 1, p) && Costs(replies[k - 1]) then 1 else 0)
  }

  lemma TurnSpends(plan: Plan, s: Sweep, reply: Reply, p: Provider)
    requires Selected(plan, s).Some?
    ensures var mine := plan.order[Selected(plan, s).value] == p;
            var t := Turn(plan, s, reply);
            Attempts(t, p) == Attempts(s, p) + (if mine && Costs(reply) then 1 else 0) &&
            (p in t.exhausted || p in t.unavailable <==>
             p in s.exhausted || p in s.unavailable || (mine && Ends(reply)))
  {
    hide Pick, Eligible, Increment;
  }

  /** The counted attempts of a provider are exactly its turns that cost one. */
  lemma {:induction false} AttemptsAreSpent(plan: Plan, start: Sweep, replies: seq<Reply>, k: nat, p: Provider)
    requires k <= |replies| && start.attempts == map[]
    ensures Attempts(State(plan, start, replies, k), p) == Spent(plan, start, replies, k, p)
  {
    hide Turn, Selected, Costs;
    if k > 0 {
      AttemptsAreSpent(plan, start, replies, k - 1, p);
      var s := State(plan, start, replies, k - 1);
      if Selected(plan, s).Some? {
        TurnSpends(plan, s, replies[k - 1], p);
      }
    }
  }

  lemma {:induction false} OutIffEnded(plan: Plan, start: Sweep, replies: seq<Reply>, k: nat, p: Provider)
    requires k <= |replies|
    ensures var s := State(plan, start, replies, k);
            p in s.exhausted || p in s.unavailable <==>
            p in start.exhausted || p in start.unavailable ||
            exists j :: 0 <= j < k && TurnOf(plan, start, replies, j, p) && Ends(replies[j])
  {
    hide Turn, Selected, Ends;
    if k > 0 {
      OutIffEnded(plan, start, replies, k - 1, p);
      var s := State(plan, start, replies, k - 1);
      if Selected(plan, s).Some? {
        TurnSpends(plan, s, replies[k - 1], p);
      }
      assert TurnOf(plan, start, replies, k - 1, p) ==> Happens(plan, start, replies, k - 1);
    }
  }

  /**
   * Exactly when a provider may be selected after k turns: it was available at the start, none of its
   * turns found no job, an open circuit or an upstream error, and it has spent less than its budget.
   */
  lemma EligibleIff(plan: Plan, start: Sweep, replies: seq<Reply>, k: nat, p: Provider)
    requires k <= |replies| && start.attempts == map[]
    ensures Eligible(plan, State(plan, start, replies, k), p) <==>
            p !in start.exhausted && p !in start.unavailable &&
            (forall j | 0 <= j < k && TurnOf(plan, start, replies, j, p) :: !Ends(replies[j])) &&
            (p in plan.budgets ==> Spent(plan, start, replies, k, p) < plan.budgets[p])
  {
    AttemptsAreSpent(plan, start, replies, k, p);
    OutIffEnded(plan, start, replies, k, p);
    hide State, TurnOf, Ends, Spent;
  }

  /** A budget is never exceeded: a provider has at most so many turns that cost an attempt. */
  lemma {:induction false} BudgetsHold(plan: Plan, start: Sweep, replies: seq<Reply>, k: nat, p: Provider)
    requires k <= |replies| && start.attempts == map[] && p in plan.budgets
    ensures Spent(plan, start, replies, k, p) == Attempts(State(plan, start, replies, k), p) <= Max(0, plan.budgets[p])
  {
    AttemptsAreSpent(plan, start, replies, k, p);
    if k > 0 {
      BudgetsHold(plan, start, replies, k - 1, p);
      if TurnOf(plan, start, replies, k - 1, p) {
        EligibleWhenChosen(plan, start, replies, k - 1, p);
      }
    }
    hide State, TurnOf, Costs;
  }

  lemma EligibleWhenChosen(plan: Plan, start: Sweep, replies: seq<Reply>, k: nat, p: Provider)
    requires k < |replies| && start.attempts == map[] && TurnOf(plan, start, replies, k, p)
    ensures p in plan.budgets ==> Spent(plan, start, replies, k, p) < plan.budgets[p]
  {
    hide Pick, State;
    EligibleIff(plan, start, replies, k, p);
  }

  /** The tally of one label over the providers of the order. */
  ghost function Total(tally: map<TallyKey, nat>, order: seq<Provider>, n: nat, tag: Label): nat
    requires n <= |order|
  {
    if n == 0 then 0 else Total(tally, order, n - 1, tag) + Count(tally, order[n - 1], tag)
  }

  lemma CountAfterIncrement(tally: map<TallyKey, nat>, p: Provider, tag: Label, amount: nat, q: Provider, l: Label)
    ensures Count(Increment(tally, p, tag, amount), q, l) ==
            Count(tally, q, l) + (if q == p && l == tag then amount else 0)
  {
  }

  lemma {:induction false} TotalAfterIncrement(
      tally: map<TallyKey, nat>, order: seq<Provider>, n: nat, index: nat, tag: Label, amount: nat, l: Label)
    requires n <= |order| && index < |order| && NoRepeats(order)
    ensures Total(Increment(tally, order[index], tag, amount), order, n, l) ==
            Total(tally, order, n, l) + (if l == tag && index < n then amount else 0)
  {
    hide Increment, Count;
    if n > 0 {
      TotalAfterIncrement(tally, order, n - 1, index, tag, amount, l);
      CountAfterIncrement(tally, order[index], tag, amount, order[n - 1], l);
      if n - 1 != index {
        assert order[n - 1] != order[index];
      }
    }
  }

  lemma TurnTallies(plan: Plan, s: Sweep, reply: Reply)
    requires Selected(plan, s).Some?
    ensures Turn(plan, s, reply).tally ==
            if reply.NoJob? then s.tally
            else Increment(s.tally, plan.order[Selected(plan, s).value], LabelOf(reply.outcome),
                           if reply.outcome.UpstreamError? then 1 + reply.bulk else 1)
  {
    hide Pick, Eligible, Increment;
  }

  /** The per-provider tallies sum to the classes of outcomes, upstream blocks with their bulk. */
  lemma {:induction false} TalliesSumToTotals(plan: Plan, start: Sweep, replies: seq<Reply>, k: nat, l: Label)
    requires k <= |replies| && NoRepeats(plan.order)
    ensures Total(State(plan, start, replies, k).tally, plan.order, |plan.order|, l) ==
            Total(start.tally, plan.order, |plan.order|, l) + Ended(plan, start, replies, k, l) +
            (if l == UpstreamBlocked then Bulk(plan, start, replies, k) else 0)
  {
    hide Turn, Pick, Total, Increment;
    if k > 0 {
      TalliesSumToTotals(plan, start, replies, k - 1, l);
      var s := State(plan, start, replies, k - 1);
      if Selected(plan, s).Some? {
        TurnTallies(plan, s, replies[k - 1]);
        if replies[k - 1].Ran? {
          var outcome := replies[k - 1].outcome;
          TotalAfterIncrement(s.tally, plan.order, |plan.order|, Selected(plan, s).value, LabelOf(outcome),
                              if outcome.UpstreamError? then 1 + replies[k - 1].bulk else 1, l);
        }
      }
    }
  }

  // Discipline: what the sweep does to the queue

  function Replay(t: Table, events: seq<Event>): Table {
    if events == [] then t else Apply(Replay(t, events[..|events| - 1]), events[|events| - 1])
  }

  /** Every event obeys its statement, and only running jobs are finished. */
  ghost predicate Disciplined(t: Table, events: seq<Event>) {
    events == [] ||
    (Disciplined(t, events[..|events| - 1]) &&
     ObeysAt(Replay(t, events[..|events| - 1]), events[|events| - 1]))
  }

  ghost predicate ObeysAt(t: Table, e: Event) {
    Legal(t, e) && NeverLowers(t, e) && Leased(t, e) && Fresh(t, e)
  }

  /** A failure is written with the counters that the row has. */
  ghost predicate Fresh(t: Table, e: Event) {
    e.Fail? ==> e.key in t && e.seen == CountersOf(t[e.key])
  }

  lemma Append(t: Table, events: seq<Event>, e: Event)
    ensures Replay(t, events + [e]) == Apply(Replay(t, events), e)
    ensures Disciplined(t, events) && ObeysAt(Replay(t, events), e) ==> Disciplined(t, events + [e])
  {
    assert (events + [e])[..|events + [e]| - 1] == events;
  }

  lemma {:induction false} AfterConcat(run: seq<Event>, events: seq<Event>, n: nat)
    requires n <= |events|
    ensures After(run + events, |run| + n) == Replay(After(run, |run|), events[..n])
    ensures forall m | 0 <= m <= |run| :: After(run + events, m) == After(run, m)
  {
    hide Apply;
    forall m | 0 <= m <= |run| ensures After(run + events, m) == After(run, m) {
      AfterPrefix(run, events, m);
    }
    if n > 0 {
      AfterConcat(run, events, n - 1);
      assert events[..n][..n - 1] == events[..n - 1];
    }
  }

  lemma {:induction false} AfterPrefix(run: seq<Event>, events: seq<Event>, m: nat)
    requires m <= |run|
    ensures After(run + events, m) == After(run, m)
  {
    if m > 0 {
      AfterPrefix(run, events, m - 1);
    }
  }

  lemma {:induction false} DisciplinedAt(t: Table, events: seq<Event>, n: nat)
    requires Disciplined(t, events) && n < |events|
    ensures ObeysAt(Replay(t, events[..n]), events[n])
  {
    var last := |events| - 1;
    if n < last {
      DisciplinedAt(t, events[..last], n);
      assert events[..last][..n] == events[..n];
    }
  }

  lemma ExtendedAt(run: seq<Event>, events: seq<Event>, i: nat)
    requires Disciplined(After(run, |run|), events) && i < |run + events|
    requires i < |run| ==> LegalAt(run, i) && LeasedAt(run, i)
    ensures LegalAt(run + events, i) && LeasedAt(run + events, i)
    ensures |run| <= i && events[i - |run|].Fail? ==> HeldAt(run + events, i)
  {
    hide Legal, NeverLowers, Leased, Apply, Replay, Disciplined, After;
    var all := run + events;
    if i < |run| {
      AfterPrefix(run, events, i);
      if run[i].Fail? {
        var m :| 0 <= m <= i && ReadAt(run, m, run[i].key, run[i].seen);
        AfterPrefix(run, events, m);
        assert ReadAt(all, m, all[i].key, all[i].seen);
      }
    } else {
      AfterConcat(run, events, i - |run|);
      DisciplinedAt(After(run, |run|), events, i - |run|);
      if all[i].Fail? {
        FreshIsHeld(all, i);
      }
    }
  }

  lemma FreshIsHeld(events: seq<Event>, i: nat)
    requires i < |events| && events[i].Fail? && Fresh(After(events, i), events[i]) &&
             Leased(After(events, i), events[i])
    ensures ReadAt(events, i, events[i].key, events[i].seen) && HeldAt(events, i)
  {
    hide After;
    assert ReadAt(events, i, events[i].key, events[i].seen);
    assert RunsUnraised(events, i, events[i].key, events[i].seen.maxAttempts);
    assert HoldsFrom(events, i, i);
  }

  lemma HeldStaysHeld(run: seq<Event>, events: seq<Event>, i: nat)
    requires i < |run| && run[i].Fail? && HeldAt(run, i)
    ensures HeldAt(run + events, i)
  {
    hide After;
    var all := run + events;
    var m :| 0 <= m <= i && HoldsFrom(run, m, i);
    AfterPrefix(run, events, m);
    forall q | m <= q <= i ensures RunsUnraised(all, q, all[i].key, all[i].seen.maxAttempts) {
      AfterPrefix(run, events, q);
      assert RunsUnraised(run, q, run[i].key, run[i].seen.maxAttempts);
    }
    assert HoldsFrom(all, m, i);
  }

  /** A disciplined sweep continues any run of lease holders, so all that such runs keep, it keeps. */
  lemma SweepExtendsRun(run: seq<Event>, events: seq<Event>)
    requires LegalRun(run) && LeasedRun(run) && HeldRun(run) && Disciplined(After(run, |run|), events)
    ensures LegalRun(run + events) && LeasedRun(run + events) && HeldRun(run + events)
    ensures After(run + events, |run + events|) == Replay(After(run, |run|), events)
  {
    hide LegalAt, LeasedAt, HeldAt, After, Replay, Disciplined;
    var all := run + events;
    forall i | 0 <= i < |all|
      ensures LegalAt(all, i) && LeasedAt(all, i) && (all[i].Fail? ==> HeldAt(all, i))
    {
      assert i < |run| ==> LegalAt(run, i) && LeasedAt(run, i);
      ExtendedAt(run, events, i);
      if i < |run| && run[i].Fail? {
        HeldStaysHeld(run, events, i);
      }
    }
    AfterConcat(run, events, |events|);
    assert events[..|events|] == events;
  }

  // The sweep itself

  const STALE_AFTER := 30 * 60

  /** How the call for one claimed job ends, and when the job was claimed and finished. */
  datatype Dispatch = Dispatch(outcome: Outcome, claimedAt: int, finishedAt: int)

  datatype SweepResult = SweepResult(
    claimed: nat, succeeded: nat, failed: nat, blockedConfig: nat, blockedUpstream: nat, deferred: nat,
    tally: map<TallyKey, nat>, pending: map<Provider, nat>)

  predicate Pending(j: Job) { j.status.Queued? || j.status.Failed? }

  function PendingOf(t: Table, providers: set<Provider>): set<JobKey> {
    set k | k in t && k.provider in providers && Pending(t[k])
  }

  function Opening(preblocked: map<Provider, nat>, total: nat): Sweep {
    Sweep(0, {}, preblocked.Keys, map[], 0, 0, 0, 0, total,
          map k | k in (set p | p in preblocked :: TallyKey(p, UpstreamBlocked)) :: preblocked[k.provider])
  }

  /** The sweep before its first turn. */
  ghost function StartOf(preblocked: map<Provider, nat>, order: seq<Provider>): Sweep {
    Opening(preblocked, SumOver(preblocked, order, |order|))
  }

  function FailureOf(outcome: Outcome): Failure {
    Failure(outcome.ConfigurationError?, outcome.UpstreamError?, outcome.PermanentError?, false)
  }

  /** The queue updates that end one claimed job. */
  function Ending(t: Table, k: JobKey, outcome: Outcome, at: int): Event {
    match outcome
    case CircuitOpen(retryAfter) => Defer(k, true, Some(retryAfter), at)
    case Success(_) => Complete(k, at)
    case _ => Fail(k, FailureOf(outcome), if k in t then CountersOf(t[k]) else Seen(0, 0), at)
  }

  /** The queue after a claimed job has ended; an upstream error also blocks what waits for its provider. */
  function AfterEnding(t: Table, k: JobKey, outcome: Outcome, at: int): Table {
    var ended := Apply(t, Ending(t, k, outcome, at));
    if outcome.UpstreamError? then Apply(ended, Event.BlockStatic(k.provider, at)) else ended
  }

  function BulkOf(t: Table, k: JobKey, outcome: Outcome, at: int): nat {
    if outcome.UpstreamError? then |Blockable(Apply(t, Ending(t, k, outcome, at)), k.provider)| else 0
  }

  /**
   * How each outcome leaves the job that had it: a success completes it, missing configuration and an upstream error
   * block it, a permanent error kills it, any other one does so only without attempts left, and an open circuit gives
   * the attempt back and holds the job for the given seconds.
   */
  lemma OutcomeDecides(t: Table, k: JobKey, outcome: Outcome, at: int)
    requires k in t
    ensures k in AfterEnding(t, k, outcome, at)
    ensures var j := AfterEnding(t, k, outcome, at)[k];
            match outcome
            case Success(_) => j.status == Succeeded && j.attempts == t[k].attempts
            case ConfigurationError => j.status == BlockedConfig && j.attempts == t[k].attempts
            case UpstreamError => j.status == BlockedUpstream && j.attempts == t[k].attempts
            case PermanentError => j.status == Dead && j.permanent && j.attempts == t[k].attempts
            case OtherError =>
              j.status == (if t[k].attempts < t[k].maxAttempts then Failed else Dead) && !j.permanent &&
              j.attempts == t[k].attempts
            case CircuitOpen(seconds) =>
              j.status == Queued && j.attempts == Max(t[k].attempts - 1, 0) && j.availableAt == at + Max(0, seconds)
  {
    hide RetryDelay;
    var e := Ending(t, k, outcome, at);
    RowOfApply(t, e, k);
    if outcome.UpstreamError? {
      RowOfApply(Apply(t, e), Event.BlockStatic(k.provider, at), k);
    }
  }

  /** And the others: an upstream error leaves nothing of the provider waiting, and every other row is as it was. */
  lemma OutcomeSpares(t: Table, k: JobKey, outcome: Outcome, at: int, other: JobKey)
    requires k in t && other in t && other != k
    ensures other in AfterEnding(t, k, outcome, at)
    ensures var j := AfterEnding(t, k, outcome, at)[other];
            if outcome.UpstreamError? && other.provider == k.provider &&
                t[other].status in {Queued, Failed, BlockedConfig}
            then j.status == BlockedUpstream
            else j == t[other]
  {
    hide RetryDelay;
    var e := Ending(t, k, outcome, at);
    RowOfApply(t, e, other);
    if outcome.UpstreamError? {
      RowOfApply(Apply(t, e), Event.BlockStatic(k.provider, at), other);
    }
  }

  /** The jobs that an upstream error blocks in bulk: the others that waited for the provider. */
  lemma BulkCounts(t: Table, k: JobKey, outcome: Outcome, at: int)
    requires k in t
    ensures BulkOf(t, k, outcome, at) ==
            if outcome.UpstreamError? then
              |set o | o in t && o != k && o.provider == k.provider && t[o].status in {Queued, Failed, BlockedConfig}|
            else 0
  {
    if outcome.UpstreamError? {
      var ended := Apply(t, Ending(t, k, outcome, at));
      var others :=
        set o | o in t && o != k && o.provider == k.provider && t[o].status in {Queued, Failed, BlockedConfig};
      forall o ensures o in Blockable(ended, k.provider) <==> o in others {
        EndedJob(t, k, outcome, at, o);
        BlockableIff(ended, k.provider, o);
      }
      hide Blockable;
      assert Blockable(ended, k.provider) == others;
    }
  }

  lemma EndedJob(t: Table, k: JobKey, outcome: Outcome, at: int, o: JobKey)
    requires k in t && outcome.UpstreamError?
    ensures var ended := Apply(t, Ending(t, k, outcome, at));
            (o in ended <==> o in t) &&
            (o in t ==> if o == k then ended[o].status == BlockedUpstream else ended[o] == t[o])
  {
    hide RetryDelay;
    if o in t {
      RowOfApply(t, Ending(t, k, outcome, at), o);
    }
  }

  lemma BlockableIff(t: Table, provider: Provider, k: JobKey)
    ensures k in Blockable(t, provider) <==>
            k in t && k.provider == provider && t[k].status in {Queued, Failed, BlockedConfig}
  {
  }

  /** What a worker brings: the providers it has access to, the rows others hold locked, and its name. */
  datatype Session = Session(configured: set<Provider>, skipped: set<JobKey>, worker: string)

  /** One turn on the queue: the first wanted job of the provider, if there is one, is claimed and ended. */
  ghost predicate TurnOn(
    t: Table, p: Provider, reactivated: set<Provider>, session: Session, call: Dispatch, reply: Reply, t': Table)
  {
    var wanted := Wanted(t, Some({p}), reactivated, session.skipped, call.claimedAt);
    if wanted == {} then reply.NoJob? && t' == t
    else
      exists k :: k in wanted && (forall other | other in wanted :: !Before(t[other], t[k])) &&
        Worked(Apply(t, Claim([k], reactivated, session.worker, call.claimedAt)), k, call, reply, t')
  }

  ghost predicate Worked(t: Table, k: JobKey, call: Dispatch, reply: Reply, t': Table) {
    reply == Ran(call.outcome, BulkOf(t, k, call.outcome, call.finishedAt)) &&
    t' == AfterEnding(t, k, call.outcome, call.finishedAt)
  }

  /** Finishes a claimed job. */
  method Finish(table: JobTable, k: JobKey, outcome: Outcome, at: int, ghost before: Table, ghost done: seq<Event>)
    returns (bulk: nat, ghost events: seq<Event>)
    requires k in table.rows && table.rows[k].status.Running?
    requires Disciplined(before, done) && table.rows == Replay(before, done)
    modifies table
    ensures Disciplined(before, events) && table.rows == Replay(before, events)
    ensures table.rows == AfterEnding(old(table.rows), k, outcome, at) &&
            bulk == BulkOf(old(table.rows), k, outcome, at)
  {
    hide Apply, RetryDelay, Replay, Disciplined;
    var e := Ending(table.rows, k, outcome, at);
    Append(before, done, e);
    events := done + [e];
    bulk := 0;
    match outcome {
      case CircuitOpen(retryAfter) => table.Defer(k, true, Some(retryAfter), at);
      case Success(_) => table.Complete(k, at);
      case _ => var ok := table.Fail(k, FailureOf(outcome), at);
    }
    if outcome.UpstreamError? {
      var block := Event.BlockStatic(k.provider, at);
      Append(before, events, block);
      events := events + [block];
      bulk := table.BlockStatic(k.provider, at);
    }
  }

  /** One turn for the selected provider: claim one job and, if there is one, run and finish it. */
  method TakeTurn(table: JobTable, p: Provider, reactivated: set<Provider>, session: Session,
                  call: Dispatch, ghost before: Table, ghost done: seq<Event>)
    returns (reply: Reply, ghost events: seq<Event>)
    requires Disciplined(before, done) && table.rows == Replay(before, done)
    modifies table
    ensures Disciplined(before, events) && table.rows == Replay(before, events)
    ensures TurnOn(old(table.rows), p, reactivated, session, call, reply, table.rows)
  {
    hide Apply, Replay, Disciplined, Wanted, AfterEnding, BulkOf, Before, Selects, TurnOn, Legal;
    var jobs, keys := table.ClaimJobs(1, Some({p}), reactivated, session.skipped, session.worker, call.claimedAt);
    ghost var claim := Claim(keys, reactivated, session.worker, call.claimedAt);
    ghost var t := old(table.rows);
    Append(before, done, claim);
    events := done + [claim];
    OneSelected(t, Wanted(t, Some({p}), reactivated, session.skipped, call.claimedAt), keys);
    if jobs == [] {
      ClaimNothing(t, claim);
      TurnNotTaken(t, p, reactivated, session, call);
      return NoJob, events;
    }
    RowOfApply(t, claim, keys[0]);
    var bulk;
    bulk, events := Finish(table, jobs[0].key, call.outcome, call.finishedAt, before, events);
    reply := Ran(call.outcome, bulk);
    TurnTaken(t, p, reactivated, session, call, keys[0], reply, table.rows);
  }

  lemma OneSelected(t: Table, wanted: set<JobKey>, keys: seq<JobKey>)
    requires wanted <= t.Keys && Selects(t, 1, wanted, keys)
    ensures keys == [] <==> wanted == {}
    ensures keys != [] ==>
            keys == [keys[0]] && keys[0] in wanted && forall other | other in wanted :: !Before(t[other], t[keys[0]])
  {
    hide Before;
    if keys != [] {
      assert keys == [keys[0]];
      forall other | other in wanted ensures !Before(t[other], t[keys[0]]) {
        if other == keys[0] {
          BeforeIsStrict(t[other]);
        }
      }
    }
  }

  lemma BeforeIsStrict(j: Job)
    ensures !Before(j, j)
  {
  }

  lemma TurnNotTaken(t: Table, p: Provider, reactivated: set<Provider>, session: Session, call: Dispatch)
    requires Wanted(t, Some({p}), reactivated, session.skipped, call.claimedAt) == {}
    ensures TurnOn(t, p, reactivated, session, call, NoJob, t)
  {
    hide Wanted;
  }

  lemma TurnTaken(t: Table, p: Provider, reactivated: set<Provider>, session: Session, call: Dispatch, k: JobKey,
                  reply: Reply, t': Table)
    requires k in Wanted(t, Some({p}), reactivated, session.skipped, call.claimedAt)
    requires forall other | other in Wanted(t, Some({p}), reactivated, session.skipped, call.claimedAt) ::
             !Before(t[other], t[k])
    requires Worked(Apply(t, Claim([k], reactivated, session.worker, call.claimedAt)), k, call, reply, t')
    ensures TurnOn(t, p, reactivated, session, call, reply, t')
  {
    hide Wanted, Worked, Before, Apply;
  }

  lemma ClaimNothing(t: Table, claim: Event)
    requires claim.Claim? && claim.keys == []
    ensures Apply(t, claim) == t
  {
  }

  /** The table with all waiting jobs of some providers out of the way. */
  function BlockedFor(t: Table, providers: set<Provider>, now: int): Table {
    map k | k in t ::
      if k.provider in providers && StaticallyBlockable(k, t[k], k.provider) then BlockedRow(t[k], now) else t[k]
  }

  /** The counts of the providers of which something is blocked. */
  function BlockedCounts(t: Table, providers: set<Provider>): map<Provider, nat> {
    map p | p in providers && Blockable(t, p) != {} :: |Blockable(t, p)|
  }

  lemma BlockedForMore(t: Table, providers: set<Provider>, p: Provider, now: int)
    requires p !in providers
    ensures Apply(BlockedFor(t, providers, now), Event.BlockStatic(p, now)) == BlockedFor(t, providers + {p}, now)
    ensures Blockable(BlockedFor(t, providers, now), p) == Blockable(t, p)
  {
  }

  /** The providers of the sweep that are known to be down. */
  function Down(errors: seq<Provider>, order: seq<Provider>): set<Provider> {
    set p | p in errors && p in order
  }

  /** Blocks what waits for providers that are known to be unavailable, before the loop. */
  method Preblock(table: JobTable, order: seq<Provider>, upstreamErrors: seq<Provider>, now: int)
    returns (preblocked: map<Provider, nat>, total: nat, ghost events: seq<Event>)
    requires NoRepeats(upstreamErrors) && NoRepeats(order)
    modifies table
    ensures Disciplined(old(table.rows), events) && table.rows == Replay(old(table.rows), events)
    ensures table.rows == BlockedFor(old(table.rows), Down(upstreamErrors, order), now)
    ensures preblocked == BlockedCounts(old(table.rows), Down(upstreamErrors, order))
    ensures total == SumOver(preblocked, order, |order|)
  {
    hide *;
    preblocked, total, events := map[], 0, [];
    ghost var t := table.rows;
    NothingBlocked(t, order, now);
    for i := 0 to |upstreamErrors|
      invariant Disciplined(t, events) && table.rows == Replay(t, events)
      invariant table.rows == BlockedFor(t, Down(upstreamErrors[..i], order), now)
      invariant preblocked == BlockedCounts(t, Down(upstreamErrors[..i], order))
      invariant total == SumOver(preblocked, order, |order|)
    {
      var p := upstreamErrors[i];
      ghost var down := Down(upstreamErrors[..i], order);
      DownMore(upstreamErrors, order, i);
      if p in order {
        BlockedForMore(t, down, p, now);
        BlockedCountsMore(t, down, p, order);
        BlockObeys(table.rows, p, now);
        Append(t, events, Event.BlockStatic(p, now));
        events := events + [Event.BlockStatic(p, now)];
        var count := table.BlockStatic(p, now);
        if count > 0 {
          preblocked := preblocked[p := count];
          total := total + count;
        }
      }
    }
    assert upstreamErrors[..|upstreamErrors|] == upstreamErrors;
  }

  lemma BlockObeys(t: Table, p: Provider, now: int)
    ensures ObeysAt(t, Event.BlockStatic(p, now))
  {
  }

  lemma NothingBlocked(t: Table, order: seq<Provider>, now: int)
    ensures BlockedFor(t, Down([], order), now) == t && BlockedCounts(t, Down([], order)) == map[]
    ensures Disciplined(t, []) && Replay(t, []) == t
    ensures SumOver(map[], order, |order|) == 0
  {
    SumOfNothing(order, |order|);
  }

  lemma DownMore(errors: seq<Provider>, order: seq<Provider>, i: nat)
    requires i < |errors| && NoRepeats(errors)
    ensures var down := Down(errors[..i], order);
            errors[i] !in down &&
            Down(errors[..i + 1], order) == if errors[i] in order then down + {errors[i]} else down
  {
    assert errors[..i + 1] == errors[..i] + [errors[i]];
  }

  lemma BlockedCountsMore(t: Table, down: set<Provider>, p: Provider, order: seq<Provider>)
    requires p !in down && p in order && NoRepeats(order)
    ensures var counts, count := BlockedCounts(t, down), |Blockable(t, p)|;
            var more := BlockedCounts(t, down + {p});
            more == (if count == 0 then counts else counts[p := count]) &&
            SumOver(more, order, |order|) == SumOver(counts, order, |order|) + count
  {
    hide Blockable;
    var counts, count := BlockedCounts(t, down), |Blockable(t, p)|;
    assert p !in counts;
    assert BlockedCounts(t, down + {p}) == if count == 0 then counts else counts[p := count];
    if count > 0 {
      SumAfterAdd(counts, order, |order|, p, count);
      assert order[..|order|] == order;
    }
  }

  ghost function SumOver(counts: map<Provider, nat>, order: seq<Provider>, n: nat): nat
    requires n <= |order|
  {
    if n == 0 then 0
    else SumOver(counts, order, n - 1) + (if order[n - 1] in counts then counts[order[n - 1]] else 0)
  }

  lemma {:induction false} SumOfNothing(order: seq<Provider>, n: nat)
    requires n <= |order|
    ensures SumOver(map[], order, n) == 0
  {
    if n > 0 {
      SumOfNothing(order, n - 1);
    }
  }

  lemma {:induction false} SumAfterAdd(
      counts: map<Provider, nat>, order: seq<Provider>, n: nat, p: Provider, amount: nat)
    requires n <= |order| && NoRepeats(order) && p !in counts
    ensures SumOver(counts[p := amount], order, n) ==
            SumOver(counts, order, n) + (if p in order[..n] then amount else 0)
  {
    if n > 0 {
      SumAfterAdd(counts, order, n - 1, p, amount);
      assert order[..n] == order[..n - 1] + [order[n - 1]];
    }
  }

  /** At the start the tallies already sum to the totals. */
  lemma {:induction false} StartTallies(
      preblocked: map<Provider, nat>, total: nat, order: seq<Provider>, n: nat, l: Label)
    requires n <= |order|
    ensures Total(Opening(preblocked, total).tally, order, n, l) ==
            if l == UpstreamBlocked then SumOver(preblocked, order, n) else 0
  {
    if n > 0 {
      StartTallies(preblocked, total, order, n - 1, l);
    }
  }

  /**
   * What a sweep reports: every claimed job is in exactly one class, upstream blocks include those before the loop
   * and those in bulk, and the tallies by provider add up to the totals.
   */
  lemma ReportAddsUp(plan: Plan, preblocked: map<Provider, nat>, replies: seq<Reply>, l: Label)
    requires NoRepeats(plan.order)
    ensures var start := StartOf(preblocked, plan.order);
            var n := |replies|;
            var s := State(plan, start, replies, n);
            s.claimed == s.succeeded + s.failed + s.blocked + Ended(plan, start, replies, n, UpstreamBlocked) +
                         Ended(plan, start, replies, n, CircuitDeferred) &&
            s.upstreamBlocked == SumOver(preblocked, plan.order, |plan.order|) +
                                 Ended(plan, start, replies, n, UpstreamBlocked) + Bulk(plan, start, replies, n) &&
            Total(s.tally, plan.order, |plan.order|, l) ==
            (match l
             case SucceededWith => s.succeeded
             case ConfigBlocked => s.blocked
             case UpstreamBlocked => s.upstreamBlocked
             case CircuitDeferred => Ended(plan, start, replies, n, CircuitDeferred)
             case DiedOf => Ended(plan, start, replies, n, DiedOf)
             case FailedWith => Ended(plan, start, replies, n, FailedWith)) &&
            s.failed == Ended(plan, start, replies, n, DiedOf) + Ended(plan, start, replies, n, FailedWith)
  {
    var total := SumOver(preblocked, plan.order, |plan.order|);
    var start := Opening(preblocked, total);
    hide State, Ended, Bulk, Total, SumOver, NoRepeats;
    TotalsAreOutcomes(plan, start, replies, |replies|);
    TalliesSumToTotals(plan, start, replies, |replies|, l);
    StartTallies(preblocked, total, plan.order, |plan.order|, l);
  }

  /** At the start every provider may be selected but those of which something was blocked, and those without budget. */
  lemma OpenAtStartIff(plan: Plan, preblocked: map<Provider, nat>, p: Provider)
    ensures Eligible(plan, StartOf(preblocked, plan.order), p) <==>
            p !in preblocked && (p in plan.budgets ==> plan.budgets[p] > 0)
  {
  }

  /** The first turn goes to the first such provider in the order. */
  lemma FirstTurn(plan: Plan, preblocked: map<Provider, nat>)
    ensures var first := Selected(plan, StartOf(preblocked, plan.order));
            forall j | 0 <= j < |plan.order| && (first.None? || j <= first.value) ::
              var p := plan.order[j];
              (first == Some(j) <==> p !in preblocked && (p in plan.budgets ==> plan.budgets[p] > 0))
  {
    PicksFirst(plan, StartOf(preblocked, plan.order), 0);
    hide Pick;
    forall p ensures Eligible(plan, StartOf(preblocked, plan.order), p) <==>
                     p !in preblocked && (p in plan.budgets ==> plan.budgets[p] > 0)
    {
      OpenAtStartIff(plan, preblocked, p);
    }
  }

  lemma {:induction false} PicksFirst(plan: Plan, s: Sweep, from: nat)
    requires s.cursor == 0 && from <= |plan.order|
    ensures forall j | from <= j < |plan.order| && (Pick(plan, s, from).None? || j <= Pick(plan, s, from).value) ::
              Pick(plan, s, from) == Some(j) <==> Eligible(plan, s, plan.order[j])
    ensures Pick(plan, s, from).Some? ==> from <= Pick(plan, s, from).value
    decreases |plan.order| - from
  {
    if from < |plan.order| {
      SmallMod(from, |plan.order|);
      PicksFirst(plan, s, from + 1);
    }
  }

  lemma SmallMod(a: nat, n: nat)
    requires a < n
    ensures a % n == a
  {
  }

  /**
   * What the first turn finds: what waits for a provider that is down is blocked, jobs whose lock is more than half an
   * hour old are queued again, and every other job is as it was.
   */
  lemma FirstTurnFinds(t: Table, down: set<Provider>, now: int, k: JobKey)
    requires k in t && BoundRow(t[k])
    ensures var found := Apply(BlockedFor(t, down, now), Event.RecoverStale(STALE_AFTER, now));
            k in found &&
            if k.provider in down && t[k].status in {Queued, Failed, BlockedConfig} then
              found[k].status == BlockedUpstream && found[k].attempts == t[k].attempts
            else if t[k].status == Running && t[k].lock.value.at + 1800 < now then
              found[k].status == Queued && found[k].lock == None && found[k].attempts == t[k].attempts
            else found[k] == t[k]
  {
  }

  /** The jobs that are counted as left over: one more attempt and its time is all that they need to be started. */
  lemma LeftOverIff(t: Table, providers: set<Provider>, k: JobKey)
    ensures k in PendingOf(t, providers) <==>
            k in t && k.provider in providers &&
            exists limit, at :: t[k].(maxAttempts := limit).Startable(at)
  {
    if k in t && Pending(t[k]) {
      assert t[k].(maxAttempts := t[k].attempts + 1).Startable(t[k].availableAt);
    }
  }

  lemma {:induction false} StateOfPrefix(plan: Plan, start: Sweep, a: seq<Reply>, b: seq<Reply>, k: nat)
    requires k <= |a|
    ensures State(plan, start, a + b, k) == State(plan, start, a, k)
  {
    if k > 0 {
      StateOfPrefix(plan, start, a, b, k - 1);
    }
  }

  function Members(order: seq<Provider>): set<Provider> { set p | p in order }

  lemma PendingSplits(t: Table, order: seq<Provider>, i: nat)
    requires i < |order| && NoRepeats(order)
    ensures order[i] !in order[..i] && order[..i + 1] == order[..i] + [order[i]]
    ensures |PendingOf(t, Members(order[..i + 1]))| == |PendingOf(t, Members(order[..i]))| + |PendingOf(t, {order[i]})|
  {
    var mine, rest := PendingOf(t, {order[i]}), PendingOf(t, Members(order[..i]));
    assert order[..i + 1] == order[..i] + [order[i]];
    assert mine !! rest;
    assert PendingOf(t, Members(order[..i + 1])) == rest + mine;
  }

  /** What is left waiting, in all and by provider. */
  method CountPending(t: Table, order: seq<Provider>) returns (deferred: nat, pending: map<Provider, nat>)
    requires NoRepeats(order)
    ensures deferred == |PendingOf(t, Members(order))|
    ensures forall p :: p in pending <==> p in order && PendingOf(t, {p}) != {}
    ensures forall p | p in pending :: pending[p] == |PendingOf(t, {p})|
  {
    deferred, pending := 0, map[];
    assert order[..0] == [] && PendingOf(t, Members([])) == {};
    hide PendingOf, Members;
    for i := 0 to |order|
      invariant deferred == |PendingOf(t, Members(order[..i]))|
      invariant forall p :: p in pending <==> p in order[..i] && PendingOf(t, {p}) != {}
      invariant forall p | p in pending :: pending[p] == |PendingOf(t, {p})|
    {
      var p := order[i];
      var mine := PendingOf(t, {p});
      PendingSplits(t, order, i);
      if mine != {} {
        deferred := deferred + |mine|;
        pending := pending[p := |mine|];
      }
    }
    assert order[..|order|] == order;
  }

  // The trail of a sweep: the queue before the first turn and after each

  ghost predicate TurnAt(plan: Plan, s: Sweep, session: Session, call: Dispatch, t: Table, reply: Reply, t': Table) {
    Selected(plan, s).Some? &&
    TurnOn(t, plan.order[Selected(plan, s).value], session.configured - s.unavailable, session, call, reply, t')
  }

  ghost predicate Trailed(
      plan: Plan, start: Sweep, session: Session, calls: seq<Dispatch>, replies: seq<Reply>, trail: seq<Table>)
  {
    |trail| == |replies| + 1 && |replies| <= |calls| &&
    forall k | 0 <= k < |replies| :: TrailedAt(plan, start, session, calls, replies, trail, k)
  }

  ghost predicate TrailedAt(
    plan: Plan, start: Sweep, session: Session, calls: seq<Dispatch>, replies: seq<Reply>, trail: seq<Table>, k: nat)
    requires k < |replies| && |trail| == |replies| + 1 && |replies| <= |calls|
  {
    TurnAt(plan, State(plan, start, replies, k), session, calls[k], trail[k], replies[k], trail[k + 1])
  }

  lemma TrailStarts(plan: Plan, start: Sweep, session: Session, calls: seq<Dispatch>, t: Table)
    ensures Trailed(plan, start, session, calls, [], [t]) && State(plan, start, [], 0) == start
  {
  }

  lemma TrailGoesOn(
      plan: Plan, start: Sweep, session: Session, calls: seq<Dispatch>, replies: seq<Reply>, trail: seq<Table>,
      reply: Reply, t: Table)
    requires Trailed(plan, start, session, calls, replies, trail) && |replies| < |calls|
    requires var n := |replies|;
             TurnAt(plan, State(plan, start, replies, n), session, calls[n], trail[n], reply, t)
    ensures Trailed(plan, start, session, calls, replies + [reply], trail + [t])
    ensures State(plan, start, replies + [reply], |replies| + 1) ==
            Turn(plan, State(plan, start, replies, |replies|), reply)
  {
    hide TurnOn, Turn, Pick;
    var n := |replies|;
    StateOfPrefix(plan, start, replies, [reply], n);
    forall k | 0 <= k <= n ensures TrailedAt(plan, start, session, calls, replies + [reply], trail + [t], k) {
      StateOfPrefix(plan, start, replies, [reply], k);
      assert k < n ==> TrailedAt(plan, start, session, calls, replies, trail, k);
    }
  }

  /** The selection loop over the offsets from the cursor. */
  method SelectProvider(plan: Plan, s: Sweep) returns (selected: Option<nat>)
    ensures selected == Selected(plan, s)
  {
    for offset := 0 to |plan.order|
      invariant Selected(plan, s) == Pick(plan, s, offset)
    {
      var index := (s.cursor + offset) % |plan.order|;
      if Eligible(plan, s, plan.order[index]) {
        return Some(index);
      }
    }
    selected := None;
  }

  /**
   * One sweep: providers that are down are blocked, stale jobs recovered, and then turns follow the selection,
   * each on the queue that the last one left, until the limit is reached or nothing can be selected.
   */
  method RunPending(table: JobTable, plan: Plan, upstreamErrors: seq<Provider>, session: Session, now: int, limit: nat,
                    calls: seq<Dispatch>)
    returns (r: SweepResult, ghost start: Sweep, ghost replies: seq<Reply>, ghost trail: seq<Table>,
             ghost events: seq<Event>)
    requires limit <= |calls| && NoRepeats(plan.order) && NoRepeats(upstreamErrors)
    modifies table
    ensures Disciplined(old(table.rows), events) && table.rows == Replay(old(table.rows), events)
    ensures var down := Down(upstreamErrors, plan.order);
            start == StartOf(BlockedCounts(old(table.rows), down), plan.order) && |trail| > 0 &&
            trail[0] == Apply(BlockedFor(old(table.rows), down, now), Event.RecoverStale(STALE_AFTER, now))
    ensures Trailed(plan, start, session, calls, replies, trail) && trail[|replies|] == table.rows
    ensures var s := State(plan, start, replies, |replies|);
            |replies| <= limit && (|replies| < limit ==> Selected(plan, s).None?) &&
            r.claimed == s.claimed && r.succeeded == s.succeeded && r.failed == s.failed &&
            r.blockedConfig == s.blocked && r.blockedUpstream == s.upstreamBlocked && r.tally == s.tally
    ensures r.deferred == |PendingOf(table.rows, Members(plan.order))|
    ensures forall p :: p in r.pending <==> p in plan.order && PendingOf(table.rows, {p}) != {}
    ensures forall p | p in r.pending :: r.pending[p] == |PendingOf(table.rows, {p})|
  {
    hide *;
    var s;
    s, events := Begin(table, plan, upstreamErrors, now);
    start := s;
    s, replies, trail, events := TakeTurns(table, plan, s, session, limit, calls, old(table.rows), events);
    var deferred, pending := CountPending(table.rows, plan.order);
    r := SweepResult(s.claimed, s.succeeded, s.failed, s.blocked, s.upstreamBlocked, deferred, s.tally, pending);
  }

  method Begin(table: JobTable, plan: Plan, upstreamErrors: seq<Provider>, now: int)
    returns (start: Sweep, ghost events: seq<Event>)
    requires NoRepeats(plan.order) && NoRepeats(upstreamErrors)
    modifies table
    ensures Disciplined(old(table.rows), events) && table.rows == Replay(old(table.rows), events)
    ensures var down := Down(upstreamErrors, plan.order);
            start == StartOf(BlockedCounts(old(table.rows), down), plan.order) &&
            table.rows == Apply(BlockedFor(old(table.rows), down, now), Event.RecoverStale(STALE_AFTER, now))
  {
    hide Apply, Replay, Disciplined, BlockedFor, BlockedCounts, SumOver;
    var preblocked, total;
    preblocked, total, events := Preblock(table, plan.order, upstreamErrors, now);
    Append(old(table.rows), events, Event.RecoverStale(STALE_AFTER, now));
    events := events + [Event.RecoverStale(STALE_AFTER, now)];
    var recovered := table.RecoverStale(STALE_AFTER, now);
    start := Opening(preblocked, total);
  }

  method TakeTurns(table: JobTable, plan: Plan, start: Sweep, session: Session, limit: nat, calls: seq<Dispatch>,
                   ghost before: Table, ghost done: seq<Event>)
    returns (s: Sweep, ghost replies: seq<Reply>, ghost trail: seq<Table>, ghost events: seq<Event>)
    requires limit <= |calls| && Disciplined(before, done) && table.rows == Replay(before, done)
    modifies table
    ensures Disciplined(before, events) && table.rows == Replay(before, events)
    ensures Trailed(plan, start, session, calls, replies, trail)
    ensures |trail| == |replies| + 1 && trail[0] == old(table.rows) && trail[|replies|] == table.rows
    ensures |replies| <= limit && s == State(plan, start, replies, |replies|)
    ensures |replies| < limit ==> Selected(plan, s).None?
  {
    hide *;
    s, events, replies, trail := start, done, [], [table.rows];
    TrailStarts(plan, start, session, calls, table.rows);
    var i := 0;
    while i < limit
      invariant i <= limit && |replies| == i && s == State(plan, start, replies, i)
      invariant Disciplined(before, events) && table.rows == Replay(before, events)
      invariant Trailed(plan, start, session, calls, replies, trail) && |trail| == i + 1
      invariant trail[0] == old(table.rows) && trail[i] == table.rows
      decreases limit - i
    {
      var selected := SelectProvider(plan, s);
      if selected.None? {
        break;
      }
      var reply;
      reply, events := TakeTurn(table, plan.order[selected.value], session.configured - s.unavailable, session,
                                calls[i], before, events);
      TurnHappened(plan, s, session, calls[i], trail[i], reply, table.rows);
      TrailGoesOn(plan, start, session, calls, replies, trail, reply, table.rows);
      replies, trail := replies + [reply], trail + [table.rows];
      s := Turn(plan, s, reply);
      i := i + 1;
    }
  }

  lemma TurnHappened(plan: Plan, s: Sweep, session: Session, call: Dispatch, t: Table, reply: Reply, t': Table)
    requires Selected(plan, s).Some?
    requires TurnOn(
               t, plan.order[Selected(plan, s).value], session.configured - s.unavailable, session, call, reply, t')
    ensures TurnAt(plan, s, session, call, t, reply, t')
  {
  }
}
