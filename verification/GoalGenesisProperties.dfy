/**
 What every reachable goal set keeps: a survival goal, the ranking, the bounds, distinct keys,
 and an urgency that depends only on the time since a goal was derived.
 */
module GoalGenesisProperties {
  import opened Arithmetic
  import opened StableSort
  import opened GoalGenesis

  ghost predicate HasSurvival(goals: seq<DerivedGoal>) {
    exists i :: 0 <= i < |goals| && goals[i].source == CalabasState
  }

  /** The largest balance at which no fresh goal can outrank the survival goal. */
  const SAFE_BALANCE := 1.1

  ghost predicate BalancesAtMost(inputs: seq<GoalGenesisInput>, bound: real) {
    forall i :: 0 <= i < |inputs| ==> inputs[i].hermeticBalance <= bound
  }

  // ---- Up to the safe balance no fresh goal outranks the survival goal ----

  /** `score` is at most the survival goal's, and below it where the balance neither zeroes nor saturates the scores. */
  ghost predicate YieldsToSurvival(input: GoalGenesisInput, score: real) {
    var survival := SurvivalGoal(input).RankScore();
    && score <= survival
    && (-7.0 < 3.0 * input.hermeticBalance && input.hermeticBalance < SAFE_BALANCE ==> score < survival)
  }

  /** It is enough that a goal yields at the largest urgency it can have. */
  lemma YieldsAtBound(input: GoalGenesisInput, u: real, bound: real, a: real)
    requires u <= bound && a >= 0.0 && YieldsToSurvival(input, bound * a)
    ensures YieldsToSurvival(input, u * a)
  {
    hide *;
    assert (bound - u) * a >= 0.0;
    Below(input, u * a, bound * a);
  }

  lemma Below(input: GoalGenesisInput, score: real, bound: real)
    requires score <= bound && YieldsToSurvival(input, bound)
    ensures YieldsToSurvival(input, score)
  {
  }

  lemma SurvivalRank(input: GoalGenesisInput)
    ensures SurvivalGoal(input).RankScore() == 0.85 * Clamp01(input.hermeticBalance * 0.3 + 0.7)
  {
  }

  lemma FailureYields(input: GoalGenesisInput)
    requires input.hermeticBalance <= SAFE_BALANCE
    ensures YieldsToSurvival(input, FailureLearningGoal(input).RankScore())
  {
    SurvivalRank(input);
    var urgency, align := FailureLearningGoal(input).urgency, Clamp01(input.hermeticBalance * 0.5 + 0.3);
    hide FailureLearningGoal, SurvivalGoal;
    assert YieldsToSurvival(input, 1.0 * align);
    FailureBounds(input);
    YieldsAtBound(input, urgency, 1.0, align);
  }

  lemma FailureBounds(input: GoalGenesisInput)
    ensures FailureLearningGoal(input).urgency <= 1.0
    ensures FailureLearningGoal(input).alignmentScore == Clamp01(input.hermeticBalance * 0.5 + 0.3)
  {
  }

  lemma ConsolidationYields(input: GoalGenesisInput)
    requires input.hermeticBalance <= SAFE_BALANCE
    ensures YieldsToSurvival(input, ConsolidationGoal(input).RankScore())
  {
    SurvivalRank(input);
    var urgency, align := ConsolidationGoal(input).urgency, Clamp01(input.hermeticBalance);
    hide ConsolidationGoal, SurvivalGoal;
    assert YieldsToSurvival(input, 0.8 * align);
    ConsolidationBounds(input);
    YieldsAtBound(input, urgency, 0.8, align);
  }

  lemma ConsolidationBounds(input: GoalGenesisInput)
    ensures ConsolidationGoal(input).urgency <= 0.8
    ensures ConsolidationGoal(input).alignmentScore == Clamp01(input.hermeticBalance)
  {
  }

  lemma ConstitutionalYields(input: GoalGenesisInput)
    requires input.hermeticBalance <= SAFE_BALANCE
    ensures YieldsToSurvival(input, ConstitutionalGoal(input).RankScore())
  {
    SurvivalRank(input);
    var urgency, align := ConstitutionalGoal(input).urgency, Clamp01(input.hermeticBalance * 0.4 + 0.6);
    var bound := if input.hermeticBalance <= 1.0 then 0.75 else 0.77;
    hide ConstitutionalGoal, SurvivalGoal;
    assert YieldsToSurvival(input, bound * align);
    ConstitutionalBounds(input);
    YieldsAtBound(input, urgency, bound, align);
  }

  lemma ConstitutionalBounds(input: GoalGenesisInput)
    requires input.hermeticBalance <= SAFE_BALANCE
    ensures ConstitutionalGoal(input).urgency <= if input.hermeticBalance <= 1.0 then 0.75 else 0.77
    ensures ConstitutionalGoal(input).alignmentScore == Clamp01(input.hermeticBalance * 0.4 + 0.6)
  {
  }

  lemma KnowledgeYields(input: GoalGenesisInput)
    requires input.hermeticBalance <= SAFE_BALANCE
    ensures YieldsToSurvival(input, KnowledgeGapGoal(input).RankScore())
  {
    SurvivalRank(input);
    var urgency, align := KnowledgeGapGoal(input).urgency, Clamp01(input.hermeticBalance * 0.6 + 0.2);
    hide KnowledgeGapGoal, SurvivalGoal;
    assert YieldsToSurvival(input, 0.75 * align);
    KnowledgeBounds(input);
    YieldsAtBound(input, urgency, 0.75, align);
  }

  lemma KnowledgeBounds(input: GoalGenesisInput)
    ensures KnowledgeGapGoal(input).urgency <= 0.75
    ensures KnowledgeGapGoal(input).alignmentScore == Clamp01(input.hermeticBalance * 0.6 + 0.2)
  {
  }

  lemma SurvivalOutranksFresh(engine: GoalGenesisEngine, input: GoalGenesisInput, g: DerivedGoal)
    requires input.hermeticBalance <= SAFE_BALANCE && g in FreshGoals(engine, input)
    ensures g == SurvivalGoal(input) || (g.source != CalabasState && YieldsToSurvival(input, g.RankScore()))
  {
    FailureYields(input);
    ConsolidationYields(input);
    ConstitutionalYields(input);
    KnowledgeYields(input);
    hide YieldsToSurvival;
  }

  // ---- A survival goal is always present ----

  function Above(score: real): DerivedGoal -> bool {
    (g: DerivedGoal) => g.RankScore() > score
  }

  function Outranking(score: real): DerivedGoal -> bool {
    (g: DerivedGoal) => g.source != CalabasState && g.RankScore() > score
  }

  function OtherThanSurvival(): DerivedGoal -> bool {
    (g: DerivedGoal) => g.source != CalabasState
  }

  lemma RankedMembers(goals: seq<DerivedGoal>, g: DerivedGoal)
    ensures g in Ranked(goals) <==> g in goals
  {
    SortElements(goals, RankedBefore);
    assert g in multiset(Ranked(goals)) <==> g in multiset(goals);
  }

  lemma RankedOrder(goals: seq<DerivedGoal>)
    ensures Ordered(Ranked(goals), RankedBefore)
  {
    SortOrdered(goals, RankedBefore);
  }

  lemma DerivedLeadsWithSurvival(engine: GoalGenesisEngine, input: GoalGenesisInput)
    requires input.hermeticBalance <= SAFE_BALANCE && engine.maxGoals >= 1
    ensures |Derived(engine, input).goals| >= 1
    ensures Derived(engine, input).goals[0] == SurvivalGoal(input)
  {
    var candidates := FreshGoals(engine, input);
    var j := HeadPlace(candidates, RankedBefore);
    if j > 0 {
      var first := Ranked(candidates)[0];
      assert !RankedBefore(candidates[0], first);
      RankedMembers(candidates, first);
      SurvivalOutranksFresh(engine, input, first);
      assert false;
    }
  }

  lemma DerivedAreFresh(engine: GoalGenesisEngine, input: GoalGenesisInput, g: DerivedGoal)
    requires g in Derived(engine, input).goals
    ensures g in FreshGoals(engine, input)
  {
    RankedMembers(FreshGoals(engine, input), g);
  }

  lemma {:induction false} CountAllDecayed(goals: seq<DerivedGoal>, elapsed: real, p: DerivedGoal -> bool)
    requires forall g: DerivedGoal {:trigger p(g)} :: p(Decayed(g, elapsed)) == p(g)
    ensures Count(AllDecayed(goals, elapsed), p) == Count(goals, p)
  {
    if goals == [] {
    } else {
      CountAllDecayed(goals[1..], elapsed, p);
      assert AllDecayed(goals, elapsed)[1..] == AllDecayed(goals[1..], elapsed);
    }
  }

  /** Carrying goals over never adds any, whatever property of source and key is counted. */
  lemma CountCarried(engine: GoalGenesisEngine, goals: seq<DerivedGoal>, elapsed: real,
                     keys: set<(GoalSource, bv8)>, p: DerivedGoal -> bool)
    requires forall g: DerivedGoal {:trigger p(g)} :: p(Decayed(g, elapsed)) == p(g)
    ensures Count(Carried(engine, goals, elapsed, keys), p) <= Count(goals, p)
  {
    var decayed := AllDecayed(goals, elapsed);
    CountAllDecayed(goals, elapsed, p);
    CountFilter(decayed, AboveThreshold(engine), p);
    CountFilter(Filter(decayed, AboveThreshold(engine)), Novel(keys), p);
  }

  /** Fewer candidates other than survival goals outrank the fresh survival goal than the old set holds. */
  lemma FewOutrankSurvival(engine: GoalGenesisEngine, current: GoalSet, input: GoalGenesisInput)
    requires input.hermeticBalance <= SAFE_BALANCE && HasSurvival(current.goals)
    ensures Count(Candidates(engine, current, input), Outranking(SurvivalGoal(input).RankScore()))
         < |current.goals|
  {
    var p := Outranking(SurvivalGoal(input).RankScore());
    var renewed := Derived(engine, input).goals;
    var elapsed := Elapsed(current, input);
    var carried := Carried(engine, current.goals, elapsed, Keys(renewed));
    forall g | g in renewed ensures !p(g) {
      DerivedAreFresh(engine, input, g);
      SurvivalOutranksFresh(engine, input, g);
    }
    CountNone(renewed, p);
    CountWeaker(carried, p, OtherThanSurvival());
    CountCarried(engine, current.goals, elapsed, Keys(renewed), OtherThanSurvival());
    var i :| 0 <= i < |current.goals| && current.goals[i].source == CalabasState;
    CountMissesOne(current.goals, OtherThanSurvival(), current.goals[i]);
    CountConcat(renewed, carried, p);
  }

  function IsSurvival(): DerivedGoal -> bool {
    (g: DerivedGoal) => g.source == CalabasState
  }

  lemma FreshSurvivalLeads(engine: GoalGenesisEngine, current: GoalSet, input: GoalGenesisInput)
    requires input.hermeticBalance <= SAFE_BALANCE && engine.maxGoals >= 1
    ensures |Candidates(engine, current, input)| >= 1
    ensures Candidates(engine, current, input)[0] == SurvivalGoal(input)
  {
    DerivedLeadsWithSurvival(engine, input);
  }

  lemma EvolveKeepsSurvival(engine: GoalGenesisEngine, current: GoalSet, input: GoalGenesisInput)
    requires input.hermeticBalance <= SAFE_BALANCE
    requires HasSurvival(current.goals) && |current.goals| <= engine.maxGoals
    ensures HasSurvival(Evolved(engine, current, input).goals)
  {
    var candidates := Candidates(engine, current, input);
    FreshSurvivalLeads(engine, current, input);
    FewOutrankSurvival(engine, current, input);
    TopKeepsHead(candidates, RankedBefore, IsSurvival(), Outranking(SurvivalGoal(input).RankScore()), engine.maxGoals);
    var i :| 0 <= i < engine.maxGoals && i < |candidates| && IsSurvival()(Ranked(candidates)[i]);
    assert Evolved(engine, current, input).goals[i].source == CalabasState;
  }

  lemma RunBounded(engine: GoalGenesisEngine, inputs: seq<GoalGenesisInput>, n: nat)
    requires 0 < n <= |inputs|
    ensures |Run(engine, inputs, n).goals| <= engine.maxGoals
  {
  }

  lemma DerivedHasSurvival(engine: GoalGenesisEngine, input: GoalGenesisInput)
    requires input.hermeticBalance <= SAFE_BALANCE && engine.maxGoals >= 1
    ensures HasSurvival(Derived(engine, input).goals)
  {
    DerivedLeadsWithSurvival(engine, input);
  }

  lemma SurvivalStep(engine: GoalGenesisEngine, inputs: seq<GoalGenesisInput>, n: nat)
    requires 1 < n <= |inputs| && inputs[n - 1].hermeticBalance <= SAFE_BALANCE
    requires HasSurvival(Run(engine, inputs, n - 1).goals)
    ensures HasSurvival(Run(engine, inputs, n).goals)
  {
    RunBounded(engine, inputs, n - 1);
    EvolveKeepsSurvival(engine, Run(engine, inputs, n - 1), inputs[n - 1]);
  }

  lemma {:induction false} SurvivalKept(engine: GoalGenesisEngine, inputs: seq<GoalGenesisInput>, n: nat)
    requires 0 < n <= |inputs| && BalancesAtMost(inputs, SAFE_BALANCE) && engine.maxGoals >= 1
    ensures HasSurvival(Run(engine, inputs, n).goals)
  {
    hide Derived, Evolved;
    if n == 1 {
      DerivedHasSurvival(engine, inputs[0]);
    } else {
      SurvivalKept(engine, inputs, n - 1);
      SurvivalStep(engine, inputs, n);
    }
  }

  /** At every point of every run, a survival goal is in the set exactly when the set may hold a goal at all. */
  lemma SurvivalAlwaysPresent(engine: GoalGenesisEngine, inputs: seq<GoalGenesisInput>, n: nat)
    requires 0 < n <= |inputs| && BalancesAtMost(inputs, SAFE_BALANCE)
    ensures HasSurvival(Run(engine, inputs, n).goals) <==> engine.maxGoals >= 1
  {
    if engine.maxGoals >= 1 {
      SurvivalKept(engine, inputs, n);
    } else {
      RunBounded(engine, inputs, n);
    }
  }

  // ---- Past the safe balance ----

  /**
   Whatever the balance, a derived set holds its survival goal exactly when fewer than `maxGoals` fresh goals
   outrank it.
   */
  lemma DerivedHasSurvivalIff(engine: GoalGenesisEngine, input: GoalGenesisInput)
    ensures HasSurvival(Derived(engine, input).goals)
       <==> Count(FreshGoals(engine, input), Above(SurvivalGoal(input).RankScore())) < engine.maxGoals
  {
    var candidates, above := FreshGoals(engine, input), Above(SurvivalGoal(input).RankScore());
    var sorted := Ranked(candidates);
    var j := HeadPlace(candidates, RankedBefore);
    SortCount(candidates, RankedBefore, above);
    RankedOrder(candidates);
    CountUpTo(sorted, above, j);
    forall i | 0 <= i < |sorted| ensures sorted[i].source == CalabasState <==> i == j {
      RankedMembers(candidates, sorted[i]);
      OneFreshSurvival(engine, input, i, j);
    }
    var n := |Derived(engine, input).goals|;
    if j < n { assert Derived(engine, input).goals[j].source == CalabasState; }
  }

  lemma CountUpTo(goals: seq<DerivedGoal>, p: DerivedGoal -> bool, j: nat)
    requires j <= |goals|
    requires forall i :: 0 <= i < |goals| ==> (p(goals[i]) <==> i < j)
    ensures Count(goals, p) == j
  {
    hide Count;
    assert goals == goals[..j] + goals[j..];
    CountConcat(goals[..j], goals[j..], p);
    CountAll(goals[..j], p);
    CountNone(goals[j..], p);
  }

  /** Only one fresh goal is a survival goal, before and after ranking. */
  lemma OneFreshSurvival(engine: GoalGenesisEngine, input: GoalGenesisInput, i: nat, j: nat)
    requires i < |Ranked(FreshGoals(engine, input))| && j < |Ranked(FreshGoals(engine, input))|
    requires Ranked(FreshGoals(engine, input))[j] == SurvivalGoal(input)
    ensures Ranked(FreshGoals(engine, input))[i].source == CalabasState <==> i == j
  {
    var sorted := Ranked(FreshGoals(engine, input));
    SortCount(FreshGoals(engine, input), RankedBefore, HasSource(CalabasState));
    FreshSourcesOnce(engine, input, CalabasState);
    if sorted[i].source == CalabasState && i < j { CountTwo(sorted, HasSource(CalabasState), i, j); }
    if sorted[i].source == CalabasState && j < i { CountTwo(sorted, HasSource(CalabasState), j, i); }
  }

  /** Past the safe balance, failures at six fifths of the actions or more push survival out of a set of one. */
  lemma FailuresDisplaceSurvival(engine: GoalGenesisEngine, input: GoalGenesisInput)
    requires engine.maxGoals == 1 && input.hermeticBalance > SAFE_BALANCE
    requires input.recentFailureCount > 0 && 5 * input.recentFailureCount >= 6 * input.recentActionCount
    requires input.recentActionCount == 0 ==> input.recentFailureCount >= 2
    ensures !HasSurvival(Derived(engine, input).goals)
  {
    SaturatedRanks(input);
    var candidates := FreshGoals(engine, input);
    assert candidates[1] == FailureLearningGoal(input);
    CountOne(candidates, Above(SurvivalGoal(input).RankScore()), 1);
    DerivedHasSurvivalIff(engine, input);
  }

  lemma SaturatedRanks(input: GoalGenesisInput)
    requires input.hermeticBalance > SAFE_BALANCE
    requires input.recentFailureCount > 0 && 5 * input.recentFailureCount >= 6 * input.recentActionCount
    requires input.recentActionCount == 0 ==> input.recentFailureCount >= 2
    ensures FailureLearningGoal(input).RankScore() > SurvivalGoal(input).RankScore()
  {
    var actions := if input.recentActionCount == 0 then 1 else input.recentActionCount;
    RatioAtLeast(input.recentFailureCount, actions);
    assert FailureLearningGoal(input).urgency == 1.0;
    assert SurvivalGoal(input).alignmentScore == 1.0;
  }

  lemma RatioAtLeast(failures: nat, actions: nat)
    requires actions > 0 && 5 * failures >= 6 * actions
    ensures failures as real / actions as real >= 1.2
  {
    assert failures as real >= 1.2 * actions as real;
  }

  /** Every run of every engine that may hold a goal keeps a survival goal, when no balance exceeds `bound`. */
  ghost predicate KeepsSurvivalUpTo(bound: real) {
    forall engine: GoalGenesisEngine, inputs: seq<GoalGenesisInput>, n: nat ::
      0 < n <= |inputs| && engine.maxGoals >= 1 && BalancesAtMost(inputs, bound) ==>
        HasSurvival(Run(engine, inputs, n).goals)
  }

  /** A bound on the balance is safe exactly up to 1.1. */
  lemma SafeBalanceIff(bound: real)
    ensures KeepsSurvivalUpTo(bound) <==> bound <= SAFE_BALANCE
  {
    hide Run, HasSurvival, Derived;
    if bound <= SAFE_BALANCE {
      forall engine: GoalGenesisEngine, inputs: seq<GoalGenesisInput>, n: nat
        | 0 < n <= |inputs| && engine.maxGoals >= 1 && BalancesAtMost(inputs, bound)
        ensures HasSurvival(Run(engine, inputs, n).goals)
      {
        SurvivalKept(engine, inputs, n);
      }
    } else {
      var engine := GoalGenesisEngine(false, 1, 0.05);
      var input := GoalGenesisInput(0, 1, 0, 0, "", bound, 1, 2, 0.0, NoTwin);
      FailuresDisplaceSurvival(engine, input);
      FirstOfRun(engine, [input]);
      assert BalancesAtMost([input], bound);
      assert !HasSurvival(Run(engine, [input], 1).goals);
    }
  }

  lemma FirstOfRun(engine: GoalGenesisEngine, inputs: seq<GoalGenesisInput>)
    requires inputs != []
    ensures Run(engine, inputs, 1) == Derived(engine, inputs[0])
  {
  }

  // ---- Ranking, bounds and keys ----

  ghost predicate DistinctKeys(goals: seq<DerivedGoal>) {
    forall i, j :: 0 <= i < j < |goals| ==> goals[i].Key() != goals[j].Key()
  }

  ghost predicate WithinBounds(g: DerivedGoal) {
    0.0 <= g.urgency <= 1.0 && 0.0 <= g.alignmentScore <= 1.0
  }

  function HasKey(key: (GoalSource, bv8)): DerivedGoal -> bool {
    (g: DerivedGoal) => g.Key() == key
  }

  /** `DistinctKeys`, as a count that sorting, filtering and concatenation respect. */
  ghost predicate KeysOnce(goals: seq<DerivedGoal>) {
    forall key :: Count(goals, HasKey(key)) <= 1
  }

  lemma OnceIsDistinct(goals: seq<DerivedGoal>)
    requires KeysOnce(goals)
    ensures DistinctKeys(goals)
  {
    forall i, j | 0 <= i < j < |goals| ensures goals[i].Key() != goals[j].Key() {
      var key := goals[i].Key();
      assert Count(goals, HasKey(key)) <= 1;
      if goals[j].Key() == key {
        CountTwo(goals, HasKey(key), i, j);
      }
    }
  }

  lemma FinalizedKeysOnce(engine: GoalGenesisEngine, goals: seq<DerivedGoal>, input: GoalGenesisInput)
    requires KeysOnce(goals)
    ensures KeysOnce(Finalized(engine, goals, input).goals)
  {
    var kept := Finalized(engine, goals, input).goals;
    forall key ensures Count(kept, HasKey(key)) <= 1 {
      SortCount(goals, RankedBefore, HasKey(key));
      assert Ranked(goals) == kept + Ranked(goals)[|kept|..];
      CountConcat(kept, Ranked(goals)[|kept|..], HasKey(key));
      assert Count(goals, HasKey(key)) <= 1;
    }
  }

  function HasSource(source: GoalSource): DerivedGoal -> bool {
    (g: DerivedGoal) => g.source == source
  }

  lemma CountOptional(present: bool, g: DerivedGoal, source: GoalSource)
    ensures Count(if present then [g] else [], HasSource(source)) == if present && g.source == source then 1 else 0
  {
  }

  lemma FreshSourcesOnce(engine: GoalGenesisEngine, input: GoalGenesisInput, source: GoalSource)
    ensures Count(FreshGoals(engine, input), HasSource(source)) <= 1
  {
    hide Clamp01, Count;
    var p := HasSource(source);
    var failure := if input.recentFailureCount > 0 then [FailureLearningGoal(input)] else [];
    var consolidation := if input.glyphCount > 10 then [ConsolidationGoal(input)] else [];
    var knowledge := if engine.larqlEnabled then [KnowledgeGapGoal(input)] else [];
    CountConcat([SurvivalGoal(input)], failure, p);
    CountConcat([SurvivalGoal(input)] + failure, consolidation, p);
    CountConcat([SurvivalGoal(input)] + failure + consolidation, [ConstitutionalGoal(input)], p);
    CountConcat([SurvivalGoal(input)] + failure + consolidation + [ConstitutionalGoal(input)], knowledge, p);
    CountOptional(true, SurvivalGoal(input), source);
    CountOptional(input.recentFailureCount > 0, FailureLearningGoal(input), source);
    CountOptional(input.glyphCount > 10, ConsolidationGoal(input), source);
    CountOptional(true, ConstitutionalGoal(input), source);
    CountOptional(engine.larqlEnabled, KnowledgeGapGoal(input), source);
  }

  lemma FreshKeysOnce(engine: GoalGenesisEngine, input: GoalGenesisInput)
    ensures KeysOnce(FreshGoals(engine, input))
  {
    hide FreshGoals;
    forall key: (GoalSource, bv8) ensures Count(FreshGoals(engine, input), HasKey(key)) <= 1 {
      CountWeaker(FreshGoals(engine, input), HasKey(key), HasSource(key.0));
      FreshSourcesOnce(engine, input, key.0);
    }
  }

  lemma CandidateKeysOnce(engine: GoalGenesisEngine, current: GoalSet, input: GoalGenesisInput)
    requires KeysOnce(current.goals)
    ensures KeysOnce(Candidates(engine, current, input))
  {
    var renewed := Derived(engine, input).goals;
    var elapsed := Elapsed(current, input);
    var carried := Carried(engine, current.goals, elapsed, Keys(renewed));
    FreshKeysOnce(engine, input);
    FinalizedKeysOnce(engine, FreshGoals(engine, input), input);
    forall key ensures Count(Candidates(engine, current, input), HasKey(key)) <= 1 {
      CountConcat(renewed, carried, HasKey(key));
      CountCarried(engine, current.goals, elapsed, Keys(renewed), HasKey(key));
      assert Count(renewed, HasKey(key)) <= 1 && Count(current.goals, HasKey(key)) <= 1;
      if key in Keys(renewed) {
        CarriedAreNovel(engine, current.goals, elapsed, Keys(renewed));
        CountNone(carried, HasKey(key));
      } else {
        CountNone(renewed, HasKey(key));
      }
    }
  }

  lemma CarriedAreNovel(engine: GoalGenesisEngine, goals: seq<DerivedGoal>, elapsed: real,
                        keys: set<(GoalSource, bv8)>)
    ensures forall g :: g in Carried(engine, goals, elapsed, keys) ==> g.Key() !in keys
  {
    forall g | g in Carried(engine, goals, elapsed, keys) ensures g.Key() !in keys {
      FilterMember(Filter(AllDecayed(goals, elapsed), AboveThreshold(engine)), Novel(keys), g);
    }
  }

  lemma {:induction false} RunKeysOnce(engine: GoalGenesisEngine, inputs: seq<GoalGenesisInput>, n: nat)
    requires 0 < n <= |inputs|
    ensures KeysOnce(Run(engine, inputs, n).goals)
  {
    if n == 1 {
      FreshKeysOnce(engine, inputs[0]);
      FinalizedKeysOnce(engine, FreshGoals(engine, inputs[0]), inputs[0]);
    } else {
      var before := Run(engine, inputs, n - 1);
      RunKeysOnce(engine, inputs, n - 1);
      CandidateKeysOnce(engine, before, inputs[n - 1]);
      FinalizedKeysOnce(engine, Candidates(engine, before, inputs[n - 1]), inputs[n - 1]);
    }
  }

  // ---- Where a goal comes from ----

  ghost predicate TimesInOrder(inputs: seq<GoalGenesisInput>) {
    forall i, j :: 0 <= i <= j < |inputs| ==> inputs[i].nowTs <= inputs[j].nowTs
  }

  lemma CarriedOrigin(engine: GoalGenesisEngine, goals: seq<DerivedGoal>, elapsed: real,
                      keys: set<(GoalSource, bv8)>, g: DerivedGoal)
    returns (i: nat)
    requires g in Carried(engine, goals, elapsed, keys)
    ensures i < |goals| && g == Decayed(goals[i], elapsed)
    ensures g.RankScore() >= engine.minUrgencyThreshold && g.Key() !in keys
  {
    FilterMember(Filter(AllDecayed(goals, elapsed), AboveThreshold(engine)), Novel(keys), g);
    FilterMember(AllDecayed(goals, elapsed), AboveThreshold(engine), g);
    i :| 0 <= i < |goals| && AllDecayed(goals, elapsed)[i] == g;
  }

  lemma DecayedTwice(g: DerivedGoal, a: real, b: real)
    requires WithinBounds(g) && g.decayRate >= 0.0 && a >= 0.0 && b >= 0.0
    ensures Decayed(Decayed(g, a), b) == Decayed(g, a + b)
  {
    var u, ra, rb := g.urgency, g.decayRate * a, g.decayRate * b;
    assert g.decayRate * (a + b) == ra + rb;
    assert ra >= 0.0 && rb >= 0.0;
    assert Clamp01(Clamp01(u - ra) - rb) == Clamp01(u - (ra + rb));
  }

  lemma FreshInBounds(engine: GoalGenesisEngine, input: GoalGenesisInput, g: DerivedGoal)
    requires g in FreshGoals(engine, input)
    ensures WithinBounds(g) && g.decayRate >= 0.0
  {
  }

  /** A goal in an evolved set is fresh, or a goal of the previous set decayed by the interval. */
  lemma EvolvedOrigin(engine: GoalGenesisEngine, current: GoalSet, input: GoalGenesisInput, g: DerivedGoal)
    returns (isFresh: bool, before: DerivedGoal)
    requires g in Evolved(engine, current, input).goals
    ensures isFresh ==> g in FreshGoals(engine, input)
    ensures isFresh || (before in current.goals && g == Decayed(before, Elapsed(current, input)))
  {
    var renewed := Derived(engine, input).goals;
    RankedMembers(Candidates(engine, current, input), g);
    isFresh, before := g in renewed, g;
    if isFresh {
      DerivedAreFresh(engine, input, g);
    } else {
      var i := CarriedOrigin(engine, current.goals, Elapsed(current, input), Keys(renewed), g);
      before := current.goals[i];
    }
  }

  lemma RunStamp(engine: GoalGenesisEngine, inputs: seq<GoalGenesisInput>, n: nat)
    requires 0 < n <= |inputs|
    ensures Run(engine, inputs, n).genesisTs == inputs[n - 1].nowTs
  {
  }

  lemma FreshIsUndecayed(engine: GoalGenesisEngine, input: GoalGenesisInput, g: DerivedGoal)
    requires g in FreshGoals(engine, input)
    ensures g == Decayed(g, 0.0)
  {
    FreshInBounds(engine, input, g);
  }

  /** The time that passed from input `i` to input `j`: a clock that goes backwards does not count. */
  function TimePassed(inputs: seq<GoalGenesisInput>, i: nat, j: nat): (t: real)
    requires i <= j < |inputs|
    ensures t >= 0.0
    decreases j
  {
    if i == j then 0.0 else TimePassed(inputs, i, j - 1) + RealMax(inputs[j].nowTs - inputs[j - 1].nowTs, 0.0)
  }

  /** With the clock in order this is the difference of the two times. */
  lemma {:induction false} TimePassedInOrder(inputs: seq<GoalGenesisInput>, i: nat, j: nat)
    requires i <= j < |inputs| && TimesInOrder(inputs)
    ensures TimePassed(inputs, i, j) == inputs[j].nowTs - inputs[i].nowTs
    decreases j
  {
    if i < j { TimePassedInOrder(inputs, i, j - 1); }
  }

  /** One step of a run: a goal is fresh, or a goal of the set before decayed by the interval. */
  lemma RunOrigin(engine: GoalGenesisEngine, inputs: seq<GoalGenesisInput>, n: nat, g: DerivedGoal)
    returns (isFresh: bool, before: DerivedGoal)
    requires 0 < n <= |inputs|
    requires g in Run(engine, inputs, n).goals
    ensures isFresh ==> g in FreshGoals(engine, inputs[n - 1])
    ensures isFresh || (n > 1 && before in Run(engine, inputs, n - 1).goals)
    ensures isFresh || g == Decayed(before, RealMax(inputs[n - 1].nowTs - inputs[n - 2].nowTs, 0.0))
  {
    hide Decayed, FreshGoals, Evolved, Derived;
    isFresh, before := true, g;
    if n == 1 {
      DerivedAreFresh(engine, inputs[0], g);
    } else {
      RunStamp(engine, inputs, n - 1);
      isFresh, before := EvolvedOrigin(engine, Run(engine, inputs, n - 1), inputs[n - 1], g);
    }
  }

  /**
   Every goal in a reachable set was freshly derived from one of the inputs, and differs from that
   fresh goal only in having decayed by the time that passed between the two inputs: the evolutions
   in between leave no trace.
   */
  lemma {:induction false} GoalsDecayByElapsedTime(engine: GoalGenesisEngine, inputs: seq<GoalGenesisInput>,
                                                   n: nat, g: DerivedGoal)
    returns (k: nat, origin: DerivedGoal)
    requires 0 < n <= |inputs|
    requires g in Run(engine, inputs, n).goals
    ensures k < n && origin in FreshGoals(engine, inputs[k])
    ensures g == Decayed(origin, TimePassed(inputs, k, n - 1))
    ensures TimesInOrder(inputs) ==> TimePassed(inputs, k, n - 1) == inputs[n - 1].nowTs - inputs[k].nowTs
  {
    hide Decayed, FreshGoals, Run;
    k, origin := n - 1, g;
    var isFresh, before := RunOrigin(engine, inputs, n, g);
    if isFresh {
      FreshIsUndecayed(engine, inputs[n - 1], g);
    } else {
      k, origin := GoalsDecayByElapsedTime(engine, inputs, n - 1, before);
      FreshInBounds(engine, inputs[k], origin);
      DecayedTwice(origin, TimePassed(inputs, k, n - 2), RealMax(inputs[n - 1].nowTs - inputs[n - 2].nowTs, 0.0));
    }
    if TimesInOrder(inputs) { TimePassedInOrder(inputs, k, n - 1); }
  }

  /** Every reachable set is ranked, bounded, free of duplicate keys, and holds only in-range scores. */
  lemma ReachableSetsAreWellFormed(engine: GoalGenesisEngine, inputs: seq<GoalGenesisInput>, n: nat)
    requires 0 < n <= |inputs|
    ensures
      var goals := Run(engine, inputs, n).goals;
      && |goals| <= engine.maxGoals
      && Ordered(goals, RankedBefore)
      && DistinctKeys(goals)
      && forall i :: 0 <= i < |goals| ==> WithinBounds(goals[i])
  {
    var goals := Run(engine, inputs, n).goals;
    RunBounded(engine, inputs, n);
    RunKeysOnce(engine, inputs, n);
    OnceIsDistinct(goals);
    RunRanked(engine, inputs, n);
    forall i | 0 <= i < |goals| ensures WithinBounds(goals[i]) {
      var k, origin := GoalsDecayByElapsedTime(engine, inputs, n, goals[i]);
      FreshInBounds(engine, inputs[k], origin);
    }
  }

  lemma RunRanked(engine: GoalGenesisEngine, inputs: seq<GoalGenesisInput>, n: nat)
    requires 0 < n <= |inputs|
    ensures Ordered(Run(engine, inputs, n).goals, RankedBefore)
  {
    if n == 1 {
      RankedOrder(FreshGoals(engine, inputs[0]));
    } else {
      RankedOrder(Candidates(engine, Run(engine, inputs, n - 1), inputs[n - 1]));
    }
  }

  /** Truncation drops only candidates that rank no higher than every kept one, and drops no more than it must. */
  lemma FinalizeKeepsTheBest(engine: GoalGenesisEngine, goals: seq<DerivedGoal>, input: GoalGenesisInput)
    returns (dropped: seq<DerivedGoal>)
    ensures
      var kept := Finalized(engine, goals, input).goals;
      && multiset(kept) + multiset(dropped) == multiset(goals)
      && (dropped == [] || |kept| == engine.maxGoals)
      && forall i, j :: 0 <= i < |kept| && 0 <= j < |dropped| ==> RankedBefore(kept[i], dropped[j])
  {
    var kept := Finalized(engine, goals, input).goals;
    var sorted := Ranked(goals);
    dropped := sorted[|kept|..];
    assert sorted == kept + dropped;
    SortElements(goals, RankedBefore);
    RankedOrder(goals);
    forall i, j | 0 <= i < |kept| && 0 <= j < |dropped| ensures RankedBefore(kept[i], dropped[j]) {
      assert RankedBefore(sorted[i], sorted[|kept| + j]);
    }
  }

  /** Equally ranked candidates keep their order, so fresh goals stay ahead of carried ones. */
  lemma TiesKeepTheirOrder(goals: seq<DerivedGoal>, score: real)
    ensures Filter(Ranked(goals), (g: DerivedGoal) => g.RankScore() == score)
         == Filter(goals, (g: DerivedGoal) => g.RankScore() == score)
  {
    SortIsStable(goals, RankedBefore, (g: DerivedGoal) => g.RankScore() == score);
  }
}
