/** Opportunity preselection: the taxonomy scope that SQL filters by, against the rule matcher. */
module Preselection {
  import opened Common

  /**
   * The lexical functions of the title search: text normalisation, the word match of a query
   * in a title, the SQL pattern of a keyword, if it has one, and the SQL pattern match.
   */
  datatype Lexicon = Lexicon(
    normalize: string -> string,
    matches: (string, string) -> bool,
    pattern: string -> Option<string>,
    sqlMatches: (string, string) -> bool)

  /** The mode of a rule: the two named ones, or any other text, with the match-any switch. */
  datatype Mode = KeywordRequired | CpvAndKeyword | OtherMode(matchAny: bool)

  datatype Filters = Filters(
    mode: Mode, cpvPrefixes: seq<string>, keywords: seq<string>,
    excludedCpvPrefixes: seq<string>, excludedKeywords: seq<string>,
    nutsPrefixes: seq<string>, municipality: Option<string>,
    buyer: Option<string>, supplier: Option<string>, amountMin: Option<real>, amountMax: Option<real>)

  datatype Context = Context(
    title: string, cpvCodes: seq<string>, nutsCodes: seq<string>, locations: seq<string>,
    buyer: Option<string>, supplier: Option<string>, amount: Option<real>)

  /** One act of a process; open ones are the requests and notices that make the process an opportunity. */
  datatype Act = Act(title: string, cpvCodes: seq<string>, open: bool)

  /** A process with its current acts: its title may come from any of them, and the rest belongs to all of them. */
  datatype Process = Process(
    title: string, acts: seq<Act>, nutsCodes: seq<string>, locations: seq<string>,
    buyer: Option<string>, supplier: Option<string>, amount: Option<real>)

  function CodesOf(acts: seq<Act>): seq<string> {
    if acts == [] then [] else CodesOf(acts[..|acts| - 1]) + acts[|acts| - 1].cpvCodes
  }

  /** What the rule matcher sees: the title of the process and the codes of all its acts. */
  function ContextOf(p: Process): Context {
    Context(p.title, CodesOf(p.acts), p.nutsCodes, p.locations, p.buyer, p.supplier, p.amount)
  }

  // The rule matcher

  predicate StartsWithAny(code: string, prefixes: seq<string>) {
    exists p | p in prefixes :: p <= code
  }

  predicate CpvMatches(f: Filters, c: Context) {
    exists code | code in c.cpvCodes :: StartsWithAny(code, f.cpvPrefixes)
  }

  predicate KeywordMatches(x: Lexicon, k: string, c: Context) {
    x.matches(x.normalize(k), x.normalize(c.title))
  }

  predicate SomeKeywordMatches(x: Lexicon, f: Filters, c: Context) {
    exists k | k in f.keywords :: KeywordMatches(x, k, c)
  }

  /** The taxonomy part of the matcher, mode by mode. */
  predicate TaxonomyMatches(x: Lexicon, f: Filters, c: Context) {
    match f.mode
    case KeywordRequired =>
      if f.keywords != [] then SomeKeywordMatches(x, f, c)
      else f.cpvPrefixes == [] || CpvMatches(f, c)
    case CpvAndKeyword =>
      (f.cpvPrefixes == [] || CpvMatches(f, c)) && (f.keywords == [] || SomeKeywordMatches(x, f, c))
    case OtherMode(matchAny) =>
      if matchAny then
        (f.cpvPrefixes == [] && f.keywords == []) || CpvMatches(f, c) || SomeKeywordMatches(x, f, c)
      else
        (f.cpvPrefixes == [] || CpvMatches(f, c)) && forall k | k in f.keywords :: KeywordMatches(x, k, c)
  }

  predicate Blank(s: string) { forall i | 0 <= i < |s| :: IsSpace(s[i]) }

  predicate IsExcluded(code: string, prefixes: seq<string>) {
    exists p | p in prefixes :: !Blank(p) && p <= code
  }

  /** Blank exclusions exclude nothing. */
  predicate Excluded(x: Lexicon, f: Filters, c: Context) {
    (exists code | code in c.cpvCodes :: IsExcluded(code, f.excludedCpvPrefixes)) ||
    (exists k | k in f.excludedKeywords :: !Blank(k) && KeywordMatches(x, k, c))
  }

  predicate PlaceMatches(x: Lexicon, f: Filters, c: Context) {
    (f.nutsPrefixes == [] || exists code | code in c.nutsCodes :: StartsWithAny(code, f.nutsPrefixes)) &&
    (f.municipality.None? || exists l | l in c.locations :: x.matches(f.municipality.value, l))
  }

  predicate PartiesAndAmountMatch(f: Filters, c: Context) {
    (f.buyer.None? || f.buyer == c.buyer) && (f.supplier.None? || f.supplier == c.supplier) &&
    (f.amountMin.None? || (c.amount.Some? && f.amountMin.value <= c.amount.value)) &&
    (f.amountMax.None? || (c.amount.Some? && c.amount.value <= f.amountMax.value))
  }

  predicate RuleMatches(x: Lexicon, f: Filters, c: Context) {
    !Excluded(x, f, c) && PlaceMatches(x, f, c) && TaxonomyMatches(x, f, c) && PartiesAndAmountMatch(f, c)
  }

  // The scope

  /** What SQL filters by: CPV prefixes, turned into LIKE patterns, and keyword patterns. */
  datatype Scope = Scope(likes: seq<string>, patterns: seq<string>)

  function BeforeDash(s: string): string {
    if s == [] || s[0] == '-' then [] else [s[0]] + BeforeDash(s[1..])
  }

  function Likes(prefixes: seq<string>): seq<string> {
    if prefixes == [] then [] else [BeforeDash(prefixes[0])] + Likes(prefixes[1..])
  }

  function Patterns(x: Lexicon, keywords: seq<string>): seq<string> {
    if keywords == [] then []
    else (match x.pattern(keywords[0]) case None => [] case Some(p) => [p]) + Patterns(x, keywords[1..])
  }

  function RuleScope(x: Lexicon, f: Filters): Scope {
    var patterns := Patterns(x, f.keywords);
    Scope(if f.mode.KeywordRequired? && patterns != [] then [] else Likes(f.cpvPrefixes), patterns)
  }

  /** A rule without a usable filter makes the whole selection unfiltered. */
  predicate Unfiltered(x: Lexicon, f: Filters) {
    RuleScope(x, f) == Scope([], [])
  }

  ghost predicate InSomeScope(x: Lexicon, rules: seq<Filters>, e: string, likes: bool) {
    exists i :: 0 <= i < |rules| && e in Part(x, rules[i], likes)
  }

  /**
   * The scope of a list of rules: nothing as soon as one of them is unfiltered, otherwise the
   * patterns of all of them.
   */
  ghost predicate ScopeOf(x: Lexicon, rules: seq<Filters>, scope: Scope) {
    if exists i :: 0 <= i < |rules| && Unfiltered(x, rules[i]) then scope == Scope([], [])
    else Collects(x, rules, scope.likes, true) && Collects(x, rules, scope.patterns, false)
  }

  ghost predicate Collects(x: Lexicon, rules: seq<Filters>, s: seq<string>, likes: bool) {
    forall e :: e in s <==> InSomeScope(x, rules, e, likes)
  }

  method CandidateScope(x: Lexicon, rules: seq<Filters>) returns (scope: Scope)
    ensures ScopeOf(x, rules, scope)
    ensures NoRepeats(scope.likes) && NoRepeats(scope.patterns)
  {
    var likes: seq<string>, patterns: seq<string> := [], [];
    for i := 0 to |rules|
      invariant forall k | 0 <= k < i :: !Unfiltered(x, rules[k])
      invariant Collects(x, rules[..i], likes, true) && Collects(x, rules[..i], patterns, false)
    {
      var own := RuleScope(x, rules[i]);
      if own.likes == [] && own.patterns == [] {
        assert Unfiltered(x, rules[i]);
        return Scope([], []);
      }
      CollectsOneMore(x, rules, i, likes, true);
      CollectsOneMore(x, rules, i, patterns, false);
      hide Collects, RuleScope;
      likes := likes + own.likes;
      patterns := patterns + own.patterns;
    }
    assert rules[..|rules|] == rules;
    DeduplicatedFacts(likes);
    DeduplicatedFacts(patterns);
    scope := Scope(Deduplicated(likes), Deduplicated(patterns));
    assert Collects(x, rules, scope.likes, true) && Collects(x, rules, scope.patterns, false);
  }

  function Part(x: Lexicon, f: Filters, likes: bool): seq<string> {
    if likes then RuleScope(x, f).likes else RuleScope(x, f).patterns
  }

  lemma CollectsOneMore(x: Lexicon, rules: seq<Filters>, i: nat, s: seq<string>, likes: bool)
    requires i < |rules| && Collects(x, rules[..i], s, likes)
    ensures Collects(x, rules[..i + 1], s + Part(x, rules[i], likes), likes)
  {
    hide Part;
    assert rules[..i + 1] == rules[..i] + [rules[i]];
    forall e
      ensures e in s + Part(x, rules[i], likes) <==> InSomeScope(x, rules[..i + 1], e, likes)
    {
      if InSomeScope(x, rules[..i], e, likes) {
        var k :| 0 <= k < i && e in Part(x, rules[..i][k], likes);
        assert rules[..i + 1][k] == rules[..i][k];
      }
      if e in Part(x, rules[i], likes) {
        assert rules[..i + 1][i] == rules[i];
      }
      if InSomeScope(x, rules[..i + 1], e, likes) {
        var k :| 0 <= k < i + 1 && e in Part(x, rules[..i + 1][k], likes);
        assert k < i ==> rules[..i][k] == rules[..i + 1][k];
      }
    }
  }

  // The selection

  /** The SQL filter on one act: off for an empty scope, otherwise a CPV code or the title must match. */
  predicate Passes(x: Lexicon, scope: Scope, a: Act) {
    scope == Scope([], []) ||
    (exists code | code in a.cpvCodes :: StartsWithAny(code, scope.likes)) ||
    (exists p | p in scope.patterns :: x.sqlMatches(p, a.title))
  }

  /** A process is selected for its open acts. */
  predicate Selected(x: Lexicon, scope: Scope, p: Process) {
    exists i | 0 <= i < |p.acts| :: OpenPasses(x, scope, p.acts[i])
  }

  predicate OpenPasses(x: Lexicon, scope: Scope, a: Act) { a.open && Passes(x, scope, a) }

  lemma {:induction false} BeforeDashIsPrefix(s: string)
    ensures BeforeDash(s) <= s
  {
    if s != [] && s[0] != '-' {
      BeforeDashIsPrefix(s[1..]);
    }
  }

  /** A prefix of a code, cut at its dash, is a prefix of the code, cut at its own. */
  lemma {:induction false} BeforeDashGrows(prefix: string, code: string)
    requires prefix <= code
    ensures BeforeDash(prefix) <= BeforeDash(code)
  {
    if prefix != [] && prefix[0] != '-' {
      assert prefix[0] == code[0] && prefix[1..] <= code[1..];
      BeforeDashGrows(prefix[1..], code[1..]);
    }
  }

  lemma {:induction false} LikeOf(prefixes: seq<string>, prefix: string)
    requires prefix in prefixes
    ensures BeforeDash(prefix) in Likes(prefixes)
  {
    if prefixes[0] != prefix {
      LikeOf(prefixes[1..], prefix);
    }
  }

  lemma {:induction false} PatternsCover(x: Lexicon, keywords: seq<string>, k: string)
    requires k in keywords && x.pattern(k).Some?
    ensures x.pattern(k).value in Patterns(x, keywords)
  {
    if keywords[0] != k {
      PatternsCover(x, keywords[1..], k);
    }
  }

  lemma LikesEmpty(prefixes: seq<string>)
    ensures Likes(prefixes) == [] <==> prefixes == []
  {
  }

  lemma {:induction false} CodesOfActs(acts: seq<Act>, code: string)
    ensures code in CodesOf(acts) <==> exists i :: 0 <= i < |acts| && code in acts[i].cpvCodes
  {
    if acts != [] {
      CodesOfActs(acts[..|acts| - 1], code);
    }
  }

  // What single rules select and accept

  lemma {:induction false} InLikesIff(prefixes: seq<string>, like: string)
    ensures like in Likes(prefixes) <==> exists p :: p in prefixes && like == BeforeDash(p)
  {
    if prefixes != [] {
      InLikesIff(prefixes[1..], like);
      assert prefixes == [prefixes[0]] + prefixes[1..];
      hide BeforeDash;
      assert like in Likes(prefixes) <==> like == BeforeDash(prefixes[0]) || like in Likes(prefixes[1..]);
      assert prefixes[0] in prefixes;
    }
  }

  lemma {:induction false} InPatternsIff(x: Lexicon, keywords: seq<string>, pattern: string)
    ensures pattern in Patterns(x, keywords) <==> exists k :: k in keywords && x.pattern(k) == Some(pattern)
  {
    if keywords != [] {
      InPatternsIff(x, keywords[1..], pattern);
      assert forall k :: k in keywords <==> k == keywords[0] || k in keywords[1..];
    }
  }

  ghost predicate SomePattern(x: Lexicon, f: Filters) {
    exists k :: k in f.keywords && x.pattern(k).Some?
  }

  ghost predicate SomePatternMatches(x: Lexicon, f: Filters, a: Act) {
    exists k :: k in f.keywords && x.pattern(k).Some? && x.sqlMatches(x.pattern(k).value, a.title)
  }

  ghost predicate SomeCodeStarts(f: Filters, a: Act) {
    exists code, p :: code in a.cpvCodes && p in f.cpvPrefixes && BeforeDash(p) <= code
  }

  /**
   * What a rule on its own selects: everything if it has neither prefix nor pattern; otherwise an act whose title
   * one of its patterns matches, or that has a code under one of its prefixes, unless it requires a keyword and has a
   * pattern.
   */
  lemma RulePassesIff(x: Lexicon, f: Filters, a: Act)
    ensures Passes(x, RuleScope(x, f), a) <==>
            (f.cpvPrefixes == [] && !SomePattern(x, f)) || SomePatternMatches(x, f, a) ||
            (SomeCodeStarts(f, a) && !(f.mode.KeywordRequired? && SomePattern(x, f)))
  {
    var scope := RuleScope(x, f);
    var patterns := Patterns(x, f.keywords);
    LikesEmpty(f.cpvPrefixes);
    forall p ensures p in patterns <==> exists k :: k in f.keywords && x.pattern(k) == Some(p) {
      InPatternsIff(x, f.keywords, p);
    }
    forall like ensures like in Likes(f.cpvPrefixes) <==> exists p :: p in f.cpvPrefixes && like == BeforeDash(p) {
      InLikesIff(f.cpvPrefixes, like);
    }
    hide Likes, Patterns, BeforeDash;
    PatternsEmptyIff(x, f, patterns);
    PatternPassesIff(x, f, patterns, a);
    CodePassesIff(f, Likes(f.cpvPrefixes), a);
  }

  lemma PatternsEmptyIff(x: Lexicon, f: Filters, patterns: seq<string>)
    requires forall p :: p in patterns <==> exists k :: k in f.keywords && x.pattern(k) == Some(p)
    ensures patterns == [] <==> !SomePattern(x, f)
  {
    if patterns != [] {
      assert patterns[0] in patterns;
    }
    if SomePattern(x, f) {
      var k :| k in f.keywords && x.pattern(k).Some?;
      assert x.pattern(k).value in patterns;
    }
  }

  lemma PatternPassesIff(x: Lexicon, f: Filters, patterns: seq<string>, a: Act)
    requires forall p :: p in patterns <==> exists k :: k in f.keywords && x.pattern(k) == Some(p)
    ensures (exists p | p in patterns :: x.sqlMatches(p, a.title)) <==> SomePatternMatches(x, f, a)
  {
    if SomePatternMatches(x, f, a) {
      var k :| k in f.keywords && x.pattern(k).Some? && x.sqlMatches(x.pattern(k).value, a.title);
      assert x.pattern(k).value in patterns;
    }
    if p :| p in patterns && x.sqlMatches(p, a.title) {
      var k :| k in f.keywords && x.pattern(k) == Some(p);
    }
  }

  lemma CodePassesIff(f: Filters, likes: seq<string>, a: Act)
    requires forall like :: like in likes <==> exists p :: p in f.cpvPrefixes && like == BeforeDash(p)
    ensures (exists code | code in a.cpvCodes :: StartsWithAny(code, likes)) <==> SomeCodeStarts(f, a)
  {
    hide BeforeDash;
    if code :| code in a.cpvCodes && StartsWithAny(code, likes) {
      var like :| like in likes && like <= code;
      var p :| p in f.cpvPrefixes && like == BeforeDash(p);
      assert SomeCodeStarts(f, a);
    }
    if SomeCodeStarts(f, a) {
      var code, p :| code in a.cpvCodes && p in f.cpvPrefixes && BeforeDash(p) <= code;
      assert BeforeDash(p) in likes;
      assert StartsWithAny(code, likes);
    }
  }

  /** The modes in terms of rules with a single filter: some, or all, of those for prefixes and keywords accept. */
  lemma ModesCompose(x: Lexicon, f: Filters, c: Context)
    ensures var byCode := exists p :: p in f.cpvPrefixes && AcceptsCode(x, p, c);
            var byKeyword := exists k :: k in f.keywords && AcceptsKeyword(x, k, c);
            TaxonomyMatches(x, f, c) <==>
            match f.mode
            case KeywordRequired => byKeyword || (f.keywords == [] && (f.cpvPrefixes == [] || byCode))
            case CpvAndKeyword => (f.cpvPrefixes == [] || byCode) && (f.keywords == [] || byKeyword)
            case OtherMode(true) => byCode || byKeyword || (f.cpvPrefixes == [] && f.keywords == [])
            case OtherMode(false) =>
              (f.cpvPrefixes == [] || byCode) && forall k | k in f.keywords :: AcceptsKeyword(x, k, c)
  {
    forall p: string ensures AcceptsCode(x, p, c) <==> exists code :: code in c.cpvCodes && p <= code {
      OneCode(x, p, c);
    }
    forall k: string ensures AcceptsKeyword(x, k, c) <==> KeywordMatches(x, k, c) {
      OneKeywordAccepts(x, k, c);
    }
    CodesAccept(x, f, c);
    hide AcceptsCode, AcceptsKeyword, KeywordMatches, CpvMatches;
  }

  ghost predicate AcceptsCode(x: Lexicon, prefix: string, c: Context) {
    TaxonomyMatches(x, Only(OtherMode(false), [prefix], []), c)
  }

  ghost predicate AcceptsKeyword(x: Lexicon, k: string, c: Context) {
    TaxonomyMatches(x, Only(OtherMode(false), [], [k]), c)
  }

  lemma OneCode(x: Lexicon, prefix: string, c: Context)
    ensures AcceptsCode(x, prefix, c) <==> exists code :: code in c.cpvCodes && prefix <= code
  {
    forall code: string ensures StartsWithAny(code, [prefix]) <==> prefix <= code {
      assert prefix in [prefix];
    }
  }

  lemma OneKeywordAccepts(x: Lexicon, k: string, c: Context)
    ensures AcceptsKeyword(x, k, c) <==> x.matches(x.normalize(k), x.normalize(c.title))
  {
    assert k in [k];
  }

  lemma CodesAccept(x: Lexicon, f: Filters, c: Context)
    ensures CpvMatches(f, c) <==> exists p :: p in f.cpvPrefixes && AcceptsCode(x, p, c)
  {
    forall p: string ensures AcceptsCode(x, p, c) <==> exists code :: code in c.cpvCodes && p <= code {
      OneCode(x, p, c);
    }
    hide AcceptsCode;
    if CpvMatches(f, c) {
      var code :| code in c.cpvCodes && StartsWithAny(code, f.cpvPrefixes);
      var p :| p in f.cpvPrefixes && p <= code;
      assert AcceptsCode(x, p, c);
    }
    if p :| p in f.cpvPrefixes && AcceptsCode(x, p, c) {
      var code :| code in c.cpvCodes && p <= code;
      assert StartsWithAny(code, f.cpvPrefixes);
    }
  }

  /** What a rule accepts besides its taxonomy: nothing excluded, a place, the parties, and an amount in the range. */
  lemma RuleAcceptsIff(x: Lexicon, f: Filters, c: Context)
    ensures RuleMatches(x, f, c) <==>
            TaxonomyMatches(x, f, c) &&
            (forall code, p | code in c.cpvCodes && p in f.excludedCpvPrefixes && p <= code ::
               forall l | l in p :: IsSpace(l)) &&
            (forall k | k in f.excludedKeywords && AcceptsKeyword(x, k, c) :: forall l | l in k :: IsSpace(l)) &&
            (f.nutsPrefixes == [] || exists code, p :: code in c.nutsCodes && p in f.nutsPrefixes && p <= code) &&
            (f.municipality == None || exists l :: l in c.locations && x.matches(f.municipality.value, l)) &&
            f.buyer in {None, c.buyer} && f.supplier in {None, c.supplier} &&
            (f.amountMin == None || (c.amount.Some? && c.amount.value >= f.amountMin.value)) &&
            (f.amountMax == None || (c.amount.Some? && c.amount.value <= f.amountMax.value))
  {
    forall k: string ensures AcceptsKeyword(x, k, c) <==> KeywordMatches(x, k, c) {
      OneKeywordAccepts(x, k, c);
    }
    hide TaxonomyMatches, AcceptsKeyword, KeywordMatches, Blank;
    ExcludedIff(x, f, c);
    PlacedIff(f, c);
  }

  lemma BlankIff(s: string)
    ensures Blank(s) <==> forall l | l in s :: IsSpace(l)
  {
  }

  lemma ExcludedIff(x: Lexicon, f: Filters, c: Context)
    ensures !Excluded(x, f, c) <==>
            (forall code, p | code in c.cpvCodes && p in f.excludedCpvPrefixes && p <= code ::
               forall l | l in p :: IsSpace(l)) &&
            (forall k | k in f.excludedKeywords && KeywordMatches(x, k, c) :: forall l | l in k :: IsSpace(l))
  {
    forall s: string ensures Blank(s) <==> forall l | l in s :: IsSpace(l) {
      BlankIff(s);
    }
    hide Blank, KeywordMatches;
    if code, p :| code in c.cpvCodes && p in f.excludedCpvPrefixes && p <= code && !Blank(p) {
      assert IsExcluded(code, f.excludedCpvPrefixes);
    }
  }

  lemma PlacedIff(f: Filters, c: Context)
    ensures (exists code | code in c.nutsCodes :: StartsWithAny(code, f.nutsPrefixes)) <==>
            exists code, p :: code in c.nutsCodes && p in f.nutsPrefixes && p <= code
  {
    if code, p :| code in c.nutsCodes && p in f.nutsPrefixes && p <= code {
      assert StartsWithAny(code, f.nutsPrefixes);
    }
  }

  // Exactly when the preselection cuts nothing that a rule accepts

  ghost predicate HasOpenAct(p: Process) {
    exists i :: 0 <= i < |p.acts| && p.acts[i].open
  }

  /** Some open act has a code that starts like this one, up to its dash. */
  ghost predicate CodeIsOpen(p: Process, code: string) {
    exists i :: 0 <= i < |p.acts| && p.acts[i].open && HasCodeLike(p.acts[i], BeforeDash(code))
  }

  predicate HasCodeLike(a: Act, prefix: string) {
    exists code | code in a.cpvCodes :: prefix <= code
  }

  /** The keyword has a SQL pattern, and that matches the title of some open act. */
  ghost predicate KeywordIsOpen(x: Lexicon, p: Process, k: string) {
    x.pattern(k).Some? &&
    exists i :: 0 <= i < |p.acts| && p.acts[i].open && x.sqlMatches(x.pattern(k).value, p.acts[i].title)
  }

  /** The open acts show everything that a rule may accept the process for. */
  ghost predicate ShownOpenly(x: Lexicon, p: Process) {
    HasOpenAct(p) &&
    (forall code | code in ContextOf(p).cpvCodes :: CodeIsOpen(p, code)) &&
    (forall k | KeywordMatches(x, k, ContextOf(p)) :: KeywordIsOpen(x, p, k))
  }

  lemma LikesSelect(x: Lexicon, scope: Scope, p: Process, prefix: string)
    requires prefix in scope.likes && exists i :: 0 <= i < |p.acts| && p.acts[i].open && HasCodeLike(p.acts[i], prefix)
    ensures Selected(x, scope, p)
  {
    var i :| 0 <= i < |p.acts| && p.acts[i].open && HasCodeLike(p.acts[i], prefix);
    var code :| code in p.acts[i].cpvCodes && prefix <= code;
    assert StartsWithAny(code, scope.likes);
    assert OpenPasses(x, scope, p.acts[i]);
  }

  lemma CodeSelects(x: Lexicon, scope: Scope, p: Process, prefixes: seq<string>, prefix: string, code: string)
    requires scope.likes == Likes(prefixes) && prefix in prefixes && prefix <= code && CodeIsOpen(p, code)
    ensures Selected(x, scope, p)
  {
    LikeOf(prefixes, prefix);
    BeforeDashGrows(prefix, code);
    var i :| 0 <= i < |p.acts| && p.acts[i].open && HasCodeLike(p.acts[i], BeforeDash(code));
    var other :| other in p.acts[i].cpvCodes && BeforeDash(code) <= other;
    assert BeforeDash(prefix) <= other;
    assert HasCodeLike(p.acts[i], BeforeDash(prefix));
    LikesSelect(x, scope, p, BeforeDash(prefix));
  }

  lemma KeywordSelects(x: Lexicon, scope: Scope, p: Process, keywords: seq<string>, k: string)
    requires scope.patterns == Patterns(x, keywords) && k in keywords && KeywordIsOpen(x, p, k)
    ensures Selected(x, scope, p)
  {
    PatternsCover(x, keywords, k);
    var i :| 0 <= i < |p.acts| && p.acts[i].open && x.sqlMatches(x.pattern(k).value, p.acts[i].title);
    assert OpenPasses(x, scope, p.acts[i]);
  }

  /** A rule that accepts a process whose open acts show everything selects it by its own scope, in every mode. */
  lemma OwnScopeCovers(x: Lexicon, f: Filters, p: Process)
    requires ShownOpenly(x, p) && TaxonomyMatches(x, f, ContextOf(p))
    ensures Selected(x, RuleScope(x, f), p)
  {
    hide CodeIsOpen, KeywordIsOpen, KeywordMatches, Selected;
    var own, c := RuleScope(x, f), ContextOf(p);
    LikesEmpty(f.cpvPrefixes);
    if f.keywords != [] {
      assert f.keywords[0] in f.keywords;
    }
    if SomeKeywordMatches(x, f, c) {
      var k :| k in f.keywords && KeywordMatches(x, k, c);
      KeywordSelects(x, own, p, f.keywords, k);
    } else if CpvMatches(f, c) && own.likes != [] {
      var code :| code in c.cpvCodes && StartsWithAny(code, f.cpvPrefixes);
      var prefix := PrefixOf(code, f.cpvPrefixes);
      CodeSelects(x, own, p, f.cpvPrefixes, prefix, code);
    } else {
      assert own == Scope([], []);
      NoFilterSelects(x, p);
    }
  }

  lemma PrefixOf(code: string, prefixes: seq<string>) returns (prefix: string)
    requires StartsWithAny(code, prefixes)
    ensures prefix in prefixes && prefix <= code
  {
    prefix :| prefix in prefixes && prefix <= code;
  }

  lemma NoFilterSelects(x: Lexicon, p: Process)
    ensures Selected(x, Scope([], []), p) <==> HasOpenAct(p)
  {
    if HasOpenAct(p) {
      var i :| 0 <= i < |p.acts| && p.acts[i].open;
      assert OpenPasses(x, Scope([], []), p.acts[i]);
    }
  }

  /** No rule on its own cuts a process that it accepts. */
  ghost predicate NoRuleCuts(x: Lexicon, p: Process) {
    forall f | RuleMatches(x, f, ContextOf(p)) :: Selected(x, RuleScope(x, f), p)
  }

  /** Filters that restrict nothing but what is given. */
  function Only(mode: Mode, cpvPrefixes: seq<string>, keywords: seq<string>): Filters {
    Filters(mode, cpvPrefixes, keywords, [], [], [], None, None, None, None, None)
  }

  lemma OnlyRestricts(x: Lexicon, mode: Mode, cpvPrefixes: seq<string>, keywords: seq<string>, c: Context)
    ensures var f := Only(mode, cpvPrefixes, keywords); RuleMatches(x, f, c) <==> TaxonomyMatches(x, f, c)
  {
    hide TaxonomyMatches;
  }

  /** A process that no rule cuts has an open act: otherwise the rule without filters cuts it. */
  lemma UncutHasOpenAct(x: Lexicon, p: Process)
    requires NoRuleCuts(x, p)
    ensures HasOpenAct(p)
  {
    var f := Only(OtherMode(false), [], []);
    OnlyRestricts(x, f.mode, [], [], ContextOf(p));
    assert TaxonomyMatches(x, f, ContextOf(p)) && RuleScope(x, f) == Scope([], []);
    NoFilterSelects(x, p);
  }

  /** The rule for a code of the process selects it only by an open act with such a code. */
  lemma UncutShowsCode(x: Lexicon, p: Process, code: string)
    requires NoRuleCuts(x, p) && code in ContextOf(p).cpvCodes
    ensures CodeIsOpen(p, code)
  {
    var f := Only(OtherMode(false), [code], []);
    var c := ContextOf(p);
    OnlyRestricts(x, f.mode, [code], [], c);
    assert StartsWithAny(code, [code]) by { assert code in [code]; }
    assert CpvMatches(f, c);
    assert TaxonomyMatches(x, f, c);
    assert Likes([code]) == [BeforeDash(code)];
    var scope := RuleScope(x, f);
    assert scope == Scope([BeforeDash(code)], []);
    var i :| 0 <= i < |p.acts| && OpenPasses(x, scope, p.acts[i]);
    var other :| other in p.acts[i].cpvCodes && StartsWithAny(other, scope.likes);
    assert HasCodeLike(p.acts[i], BeforeDash(code));
  }

  /** A prefix that no code of these acts starts with. */
  lemma {:induction false} ForeignPrefix(codes: seq<string>) returns (prefix: string)
    ensures BeforeDash(prefix) == prefix && prefix != [] && forall code | code in codes :: !(prefix <= code)
    ensures forall c | c in prefix :: c == 'x'
  {
    if codes == [] {
      prefix := "x";
    } else {
      var last := codes[|codes| - 1];
      var shorter := ForeignPrefix(codes[..|codes| - 1]);
      prefix := shorter + seq(|last|, _ => 'x');
      AllXs(prefix);
      forall code | code in codes ensures !(prefix <= code) {
        if code != last {
          assert code in codes[..|codes| - 1];
          ShorterPrefix(shorter, prefix, code);
        }
      }
    }
  }

  lemma ShorterPrefix(shorter: string, prefix: string, code: string)
    requires shorter <= prefix
    ensures prefix <= code ==> shorter <= code
  {
  }

  lemma {:induction false} AllXs(s: string)
    requires forall c | c in s :: c == 'x'
    ensures BeforeDash(s) == s
  {
    if s != [] {
      assert s[0] in s;
      forall c | c in s[1..] ensures c == 'x' {
        assert c in s;
      }
      AllXs(s[1..]);
    }
  }

  /**
   * The keyword rule with a foreign CPV prefix selects the process only by an open act that the
   * keyword's pattern matches.
   */
  lemma UncutShowsKeyword(x: Lexicon, p: Process, k: string)
    requires NoRuleCuts(x, p) && KeywordMatches(x, k, ContextOf(p))
    ensures KeywordIsOpen(x, p, k)
  {
    var c := ContextOf(p);
    var prefix := ForeignPrefix(c.cpvCodes);
    var f := Only(KeywordRequired, [prefix], [k]);
    OnlyRestricts(x, f.mode, [prefix], [k], c);
    assert k in [k] && SomeKeywordMatches(x, f, c);
    assert Likes([prefix]) == [prefix];
    var scope := RuleScope(x, f);
    var i :| 0 <= i < |p.acts| && OpenPasses(x, scope, p.acts[i]);
    OneKeyword(x, k);
    if code :| code in p.acts[i].cpvCodes && StartsWithAny(code, scope.likes) {
      CodesOfActs(p.acts, code);
    }
  }

  lemma OneKeyword(x: Lexicon, k: string)
    ensures Patterns(x, [k]) == match x.pattern(k) case None => [] case Some(pattern) => [pattern]
  {
    assert Patterns(x, []) == [];
  }

  /**
   * The exact condition: no rule cuts a process that it accepts if and only if the open acts of the
   * process show everything that a rule may accept it for.
   */
  lemma NoRuleCutsIff(x: Lexicon, p: Process)
    ensures NoRuleCuts(x, p) <==> ShownOpenly(x, p)
  {
    hide Selected, RuleScope, CodeIsOpen, KeywordIsOpen, KeywordMatches, HasOpenAct, TaxonomyMatches, ContextOf;
    if ShownOpenly(x, p) {
      forall f | RuleMatches(x, f, ContextOf(p)) ensures Selected(x, RuleScope(x, f), p) {
        OwnScopeCovers(x, f, p);
      }
    }
    if NoRuleCuts(x, p) {
      UncutHasOpenAct(x, p);
      forall code | code in ContextOf(p).cpvCodes ensures CodeIsOpen(p, code) {
        UncutShowsCode(x, p, code);
      }
      forall k | KeywordMatches(x, k, ContextOf(p)) ensures KeywordIsOpen(x, p, k) {
        UncutShowsKeyword(x, p, k);
      }
    }
  }

  // Lists of rules

  /**
   * The selection by a list of rules is exactly the union of the selections by each of them, and
   * all open processes when there is no rule.
   */
  lemma SelectionIsUnion(x: Lexicon, rules: seq<Filters>, scope: Scope, p: Process)
    requires ScopeOf(x, rules, scope)
    ensures Selected(x, scope, p) <==>
            if rules == [] then HasOpenAct(p)
            else exists i :: 0 <= i < |rules| && Selected(x, RuleScope(x, rules[i]), p)
  {
    hide Passes, ScopeOf, RuleScope;
    forall a: Act
      ensures Passes(x, scope, a) <==>
              rules == [] || exists i :: 0 <= i < |rules| && Passes(x, RuleScope(x, rules[i]), a)
    {
      PassesAreUnion(x, rules, scope, a);
    }
    if Selected(x, scope, p) {
      var j :| 0 <= j < |p.acts| && OpenPasses(x, scope, p.acts[j]);
      if rules != [] {
        var i :| 0 <= i < |rules| && Passes(x, RuleScope(x, rules[i]), p.acts[j]);
        assert OpenPasses(x, RuleScope(x, rules[i]), p.acts[j]);
        assert Selected(x, RuleScope(x, rules[i]), p);
      }
    }
    if rules == [] && HasOpenAct(p) {
      var j :| 0 <= j < |p.acts| && p.acts[j].open;
      assert OpenPasses(x, scope, p.acts[j]);
    }
    if i :| 0 <= i < |rules| && Selected(x, RuleScope(x, rules[i]), p) {
      var j :| 0 <= j < |p.acts| && OpenPasses(x, RuleScope(x, rules[i]), p.acts[j]);
      assert OpenPasses(x, scope, p.acts[j]);
    }
  }

  lemma PassesAreUnion(x: Lexicon, rules: seq<Filters>, scope: Scope, a: Act)
    requires ScopeOf(x, rules, scope)
    ensures Passes(x, scope, a) <==>
            rules == [] || exists i :: 0 <= i < |rules| && Passes(x, RuleScope(x, rules[i]), a)
  {
    if i :| 0 <= i < |rules| && Unfiltered(x, rules[i]) {
      assert Passes(x, RuleScope(x, rules[i]), a);
    } else if rules != [] {
      NonEmptyScope(x, rules, scope);
      if i :| 0 <= i < |rules| && Passes(x, RuleScope(x, rules[i]), a) {
        PassedByMember(x, rules, scope, a, i);
      }
      if Passes(x, scope, a) {
        PassedForMember(x, rules, scope, a);
      }
    } else {
      if scope.likes != [] {
        HasMember(scope.likes);
      }
      if scope.patterns != [] {
        HasMember(scope.patterns);
      }
    }
  }

  lemma HasMember(s: seq<string>)
    requires s != []
    ensures exists e :: e in s
  {
    assert s[0] in s;
  }

  lemma NonEmptyScope(x: Lexicon, rules: seq<Filters>, scope: Scope)
    requires ScopeOf(x, rules, scope) && rules != []
    requires forall i | 0 <= i < |rules| :: !Unfiltered(x, rules[i])
    ensures scope != Scope([], [])
  {
    var own := RuleScope(x, rules[0]);
    assert !Unfiltered(x, rules[0]);
    if own.likes != [] {
      assert InSomeScope(x, rules, own.likes[0], true);
    } else {
      assert InSomeScope(x, rules, own.patterns[0], false);
    }
  }

  lemma PassedByMember(x: Lexicon, rules: seq<Filters>, scope: Scope, a: Act, i: nat)
    requires ScopeOf(x, rules, scope) && i < |rules| && Passes(x, RuleScope(x, rules[i]), a)
    requires forall k | 0 <= k < |rules| :: !Unfiltered(x, rules[k])
    ensures Passes(x, scope, a)
  {
    var own := RuleScope(x, rules[i]);
    if code :| code in a.cpvCodes && StartsWithAny(code, own.likes) {
      var p :| p in own.likes && p <= code;
      assert InSomeScope(x, rules, p, true);
      assert StartsWithAny(code, scope.likes);
    } else {
      assert !Unfiltered(x, rules[i]);
      var p :| p in own.patterns && x.sqlMatches(p, a.title);
      assert InSomeScope(x, rules, p, false);
    }
  }

  lemma PassedForMember(x: Lexicon, rules: seq<Filters>, scope: Scope, a: Act)
    requires ScopeOf(x, rules, scope) && Passes(x, scope, a) && scope != Scope([], [])
    requires forall k | 0 <= k < |rules| :: !Unfiltered(x, rules[k])
    ensures exists i :: 0 <= i < |rules| && Passes(x, RuleScope(x, rules[i]), a)
  {
    if code :| code in a.cpvCodes && StartsWithAny(code, scope.likes) {
      var p :| p in scope.likes && p <= code;
      assert InSomeScope(x, rules, p, true);
      var i :| 0 <= i < |rules| && p in RuleScope(x, rules[i]).likes;
      assert StartsWithAny(code, RuleScope(x, rules[i]).likes);
      assert Passes(x, RuleScope(x, rules[i]), a);
    } else {
      var p :| p in scope.patterns && x.sqlMatches(p, a.title);
      assert InSomeScope(x, rules, p, false);
      var i :| 0 <= i < |rules| && p in RuleScope(x, rules[i]).patterns;
      assert Passes(x, RuleScope(x, rules[i]), a);
    }
  }

  ghost predicate Accepted(x: Lexicon, rules: seq<Filters>, p: Process) {
    exists i :: 0 <= i < |rules| && RuleMatches(x, rules[i], ContextOf(p))
  }

  /** No list of rules cuts a process that one of them accepts. */
  ghost predicate NoListCuts(x: Lexicon, p: Process) {
    forall rules, scope | ScopeOf(x, rules, scope) && Accepted(x, rules, p) :: Selected(x, scope, p)
  }

  lemma ScopeOfOne(x: Lexicon, f: Filters)
    ensures ScopeOf(x, [f], RuleScope(x, f))
  {
    var scope := RuleScope(x, f);
    assert [f][0] == f;
    if Unfiltered(x, f) {
      assert Unfiltered(x, [f][0]);
    } else {
      hide RuleScope;
      forall e, b ensures InSomeScope(x, [f], e, b) <==> e in Part(x, f, b) {
        if e in Part(x, f, b) {
          assert e in Part(x, [f][0], b);
        }
      }
    }
  }

  /** The same condition is exact for lists of rules, as the selection is the union over them. */
  lemma PreselectionIsSafeIff(x: Lexicon, p: Process)
    ensures NoListCuts(x, p) <==> ShownOpenly(x, p)
  {
    hide Selected, RuleScope, RuleMatches, ShownOpenly, ScopeOf, ContextOf;
    NoRuleCutsIff(x, p);
    if NoRuleCuts(x, p) {
      forall rules, scope | ScopeOf(x, rules, scope) && Accepted(x, rules, p) ensures Selected(x, scope, p) {
        SelectionIsUnion(x, rules, scope, p);
      }
    }
    if NoListCuts(x, p) {
      forall f | RuleMatches(x, f, ContextOf(p)) ensures Selected(x, RuleScope(x, f), p) {
        ScopeOfOne(x, f);
        assert RuleMatches(x, [f][0], ContextOf(p));
        assert Accepted(x, [f], p);
      }
    }
  }

  /**
   * In particular nothing is cut from a process whose acts are all open, titled alike, and matched
   * in SQL as by the matcher.
   */
  lemma PreselectionIsSafe(x: Lexicon, p: Process)
    requires p.acts != [] && forall a | a in p.acts :: a.open
    requires exists a :: a in p.acts && a.title == p.title
    requires forall k | x.matches(x.normalize(k), x.normalize(p.title)) ::
               x.pattern(k).Some? && x.sqlMatches(x.pattern(k).value, p.title)
    ensures NoListCuts(x, p)
  {
    assert p.acts[0].open;
    var a :| a in p.acts && a.title == p.title;
    forall code | code in ContextOf(p).cpvCodes ensures CodeIsOpen(p, code) {
      CodesOfActs(p.acts, code);
      BeforeDashIsPrefix(code);
      var i :| 0 <= i < |p.acts| && code in p.acts[i].cpvCodes;
      assert p.acts[i] in p.acts && HasCodeLike(p.acts[i], BeforeDash(code));
    }
    PreselectionIsSafeIff(x, p);
  }

  // What is cut

  /**
   * A notice under one code and an award under another: the rule for the second code accepts the
   * process and cuts it.
   */
  lemma AwardedCodeIsCut(x: Lexicon, title: string)
    ensures var p := Process(title, [Act(title, ["331"], true), Act(title, ["336"], false)], [], [], None, None, None);
            var f := Only(OtherMode(false), ["336"], []);
            RuleMatches(x, f, ContextOf(p)) && !Selected(x, RuleScope(x, f), p)
  {
    var acts := [Act(title, ["331"], true), Act(title, ["336"], false)];
    var p := Process(title, acts, [], [], None, None, None);
    var f := Only(OtherMode(false), ["336"], []);
    assert acts[1].cpvCodes == ["336"] && "336" in acts[1].cpvCodes;
    CodesOfActs(acts, "336");
    assert StartsWithAny("336", ["336"]) by { assert "336" in ["336"]; }
    OnlyRestricts(x, f.mode, ["336"], [], ContextOf(p));
    assert CpvMatches(f, ContextOf(p));
    assert BeforeDash("336") == "336" by { NoDash(); }
    assert Likes(["336"]) == ["336"];
    assert RuleScope(x, f) == Scope(["336"], []);
    assert "331"[2] != "336"[2];
    assert !StartsWithAny("331", ["336"]);
  }

  lemma NoDash()
    ensures BeforeDash("336") == "336"
  {
    assert BeforeDash("6") == "6" by { assert "6"[1..] == ""; }
    assert "36"[1..] == "6" && "336"[1..] == "36";
    assert BeforeDash("36") == "36";
  }

  /**
   * A keyword that the matcher finds in a title but SQL does not, as with Latin accents, which only the matcher strips:
   * its rule accepts and cuts even a process whose only act is an open one of that title.
   */
  lemma UnmatchedPatternCuts(x: Lexicon, title: string, k: string)
    requires x.matches(x.normalize(k), x.normalize(title))
    requires x.pattern(k).Some? && !x.sqlMatches(x.pattern(k).value, title)
    ensures var p := Process(title, [Act(title, [], true)], [], [], None, None, None);
            var f := Only(OtherMode(false), [], [k]);
            RuleMatches(x, f, ContextOf(p)) && !Selected(x, RuleScope(x, f), p)
  {
    var p := Process(title, [Act(title, [], true)], [], [], None, None, None);
    var f := Only(OtherMode(false), [], [k]);
    OnlyRestricts(x, f.mode, [], [k], ContextOf(p));
    OneKeyword(x, k);
    assert KeywordMatches(x, k, ContextOf(p));
    assert RuleScope(x, f) == Scope([], [x.pattern(k).value]);
  }
}
