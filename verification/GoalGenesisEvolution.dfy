/**
 What evolving keeps (omokoda-core/src/goal_genesis.rs), told in the fields of the goals alone: which old goals stay,
 which streams contribute, and what a goal has to survive to be in a later set.
 */
module GoalGenesisEvolution {
  import opened Arithmetic
  import opened StableSort
  import opened GoalGenesis
  import opened GoalGenesisProperties

  /** The goal after some time, its urgency lowered and kept in [0, 1]. */
  function Aged(g: DerivedGoal, elapsed: real): DerivedGoal {
    var urgency := g.urgency - g.decayRate * elapsed;
    g.(urgency := if urgency < 0.0 then 0.0 else if urgency > 1.0 then 1.0 else urgency)
  }

  function TimeBetween(earlier: real, later: real): real {
    if earlier <= later then later - earlier else 0.0
  }

  /** The goal's product of urgency and alignment is at least `score`. */
  predicate Scores(g: DerivedGoal, score: real) {
    g.urgency * g.alignmentScore >= score
  }

  predicate Outscores(g: DerivedGoal, h: DerivedGoal) {
    Scores(g, h.urgency * h.alignmentScore)
  }

  /** Some goal of the list has the same source and Odù. */
  ghost predicate Replaced(g: DerivedGoal, others: seq<DerivedGoal>) {
    exists h :: h in others && h.source == g.source && h.oduAlignment == g.oduAlignment
  }

  /** The set is full of goals that score at least as high. */
  ghost predicate CrowdedOut(g: DerivedGoal, goals: seq<DerivedGoal>, engine: GoalGenesisEngine) {
    |goals| == engine.maxGoals && forall h :: h in goals ==> Outscores(h, g)
  }

  /** A goal of the old set that is neither faded below the threshold nor replaced by the renewed ones. */
  ghost predicate Remains(g: DerivedGoal, before: DerivedGoal, engine: GoalGenesisEngine, current: GoalSet,
                          input: GoalGenesisInput)
  {
    && before in current.goals && g == Aged(before, TimeBetween(current.genesisTs, input.nowTs))
    && Scores(g, engine.minUrgencyThreshold) && !Replaced(g, Derived(engine, input).goals)
  }

  // ---- One evolution ----

  lemma AgedIsDecayed(g: DerivedGoal, elapsed: real)
    ensures Decayed(g, elapsed) == Aged(g, elapsed)
  {
  }

  lemma KeptOrCrowdedOut(engine: GoalGenesisEngine, goals: seq<DerivedGoal>, input: GoalGenesisInput, g: DerivedGoal)
    requires g in goals
    ensures
      var kept := Finalized(engine, goals, input).goals;
      g in kept || CrowdedOut(g, kept, engine)
  {
    var kept := Finalized(engine, goals, input).goals;
    var dropped := FinalizeKeepsTheBest(engine, goals, input);
    assert g in multiset(goals);
    if g !in kept {
      assert g in multiset(dropped);
      var j :| 0 <= j < |dropped| && dropped[j] == g;
      forall h | h in kept ensures Outscores(h, g) {
        var i :| 0 <= i < |kept| && kept[i] == h;
        assert RankedBefore(kept[i], dropped[j]);
      }
    }
  }

  lemma RemainingIsCandidate(engine: GoalGenesisEngine, current: GoalSet, input: GoalGenesisInput, before: DerivedGoal,
                             g: DerivedGoal)
    requires Remains(g, before, engine, current, input)
    ensures g in Candidates(engine, current, input)
  {
    hide Derived, Decayed, Aged;
    var elapsed, renewed := Elapsed(current, input), Derived(engine, input).goals;
    AgedIsDecayed(before, elapsed);
    var i :| 0 <= i < |current.goals| && current.goals[i] == before;
    assert AllDecayed(current.goals, elapsed)[i] == g;
    FilterMember(AllDecayed(current.goals, elapsed), AboveThreshold(engine), g);
    FilterMember(Filter(AllDecayed(current.goals, elapsed), AboveThreshold(engine)), Novel(Keys(renewed)), g);
  }

  /** Every goal that remains, and every renewed one, is in the evolved set unless that is full of goals no worse. */
  lemma EveryGoalIsKeptOrCrowdedOut(engine: GoalGenesisEngine, current: GoalSet, input: GoalGenesisInput,
                                    before: DerivedGoal, g: DerivedGoal)
    requires g in Derived(engine, input).goals || Remains(g, before, engine, current, input)
    ensures g in Evolved(engine, current, input).goals || CrowdedOut(g, Evolved(engine, current, input).goals, engine)
  {
    hide Remains, CrowdedOut, Derived, Carried, Finalized;
    if g !in Derived(engine, input).goals { RemainingIsCandidate(engine, current, input, before, g); }
    KeptOrCrowdedOut(engine, Candidates(engine, current, input), input, g);
  }

  /** And nothing else is in it. */
  lemma NothingElseIsKept(engine: GoalGenesisEngine, current: GoalSet, input: GoalGenesisInput, g: DerivedGoal)
    returns (before: DerivedGoal)
    requires g in Evolved(engine, current, input).goals
    ensures g in Derived(engine, input).goals || Remains(g, before, engine, current, input)
  {
    hide Derived, Decayed, Aged;
    var elapsed, renewed := Elapsed(current, input), Derived(engine, input).goals;
    RankedMembers(Candidates(engine, current, input), g);
    before := g;
    if g !in renewed {
      var i := CarriedOrigin(engine, current.goals, elapsed, Keys(renewed), g);
      before := current.goals[i];
      AgedIsDecayed(before, elapsed);
      NotReplaced(g, renewed);
    }
  }

  lemma NotReplaced(g: DerivedGoal, others: seq<DerivedGoal>)
    requires g.Key() !in Keys(others)
    ensures !Replaced(g, others)
  {
    forall h | h in others ensures h.source != g.source || h.oduAlignment != g.oduAlignment {
      assert h.Key() in Keys(others);
    }
  }

  // ---- The streams ----

  /** What makes a stream contribute a goal. */
  predicate Contributes(source: GoalSource, engine: GoalGenesisEngine, input: GoalGenesisInput) {
    match source
    case Experience => input.recentFailureCount > 0
    case RemConsolidation => input.glyphCount > 10
    case Knowledge => engine.larqlEnabled
    case _ => true
  }

  ghost predicate HasGoalFrom(goals: seq<DerivedGoal>, source: GoalSource) {
    exists g :: g in goals && g.source == source
  }

  lemma FreshSources(engine: GoalGenesisEngine, input: GoalGenesisInput, source: GoalSource)
    ensures HasGoalFrom(FreshGoals(engine, input), source) <==> Contributes(source, engine, input)
  {
    hide Clamp01;
    match source
    case CalabasState => assert SurvivalGoal(input) in FreshGoals(engine, input);
    case Constitutional => assert ConstitutionalGoal(input) in FreshGoals(engine, input);
    case Experience =>
      assert Contributes(source, engine, input) ==> FailureLearningGoal(input) in FreshGoals(engine, input);
    case RemConsolidation =>
      assert Contributes(source, engine, input) ==> ConsolidationGoal(input) in FreshGoals(engine, input);
    case Knowledge =>
      assert Contributes(source, engine, input) ==> KnowledgeGapGoal(input) in FreshGoals(engine, input);
  }

  /** With room for all five streams, a derived set has a goal from exactly those that contribute, and one from each. */
  lemma DerivedSourcesIff(engine: GoalGenesisEngine, input: GoalGenesisInput, source: GoalSource)
    ensures
      var goals := Derived(engine, input).goals;
      && (HasGoalFrom(goals, source) ==> Contributes(source, engine, input))
      && (engine.maxGoals >= 5 && Contributes(source, engine, input) ==> HasGoalFrom(goals, source))
      && forall i, j :: 0 <= i < j < |goals| ==> goals[i].source != goals[j].source
  {
    hide Contributes, SurvivalGoal, FailureLearningGoal, ConsolidationGoal, ConstitutionalGoal, KnowledgeGapGoal;
    var all, goals := FreshGoals(engine, input), Derived(engine, input).goals;
    FreshSources(engine, input, source);
    if HasGoalFrom(goals, source) {
      var g :| g in goals && g.source == source;
      DerivedAreFresh(engine, input, g);
    }
    if engine.maxGoals >= 5 && HasGoalFrom(all, source) {
      var g :| g in all && g.source == source;
      RankedMembers(all, g);
      assert goals == Ranked(all);
    }
    forall i, j | 0 <= i < j < |goals| ensures goals[i].source != goals[j].source {
      DerivedSourcesOnce(engine, input, goals[i].source);
      if goals[i].source == goals[j].source { CountTwo(goals, HasSource(goals[i].source), i, j); }
    }
  }

  lemma DerivedSourcesOnce(engine: GoalGenesisEngine, input: GoalGenesisInput, source: GoalSource)
    ensures Count(Derived(engine, input).goals, HasSource(source)) <= 1
  {
    hide FreshGoals;
    var all, goals := FreshGoals(engine, input), Derived(engine, input).goals;
    FreshSourcesOnce(engine, input, source);
    SortCount(all, RankedBefore, HasSource(source));
    assert Ranked(all) == goals + Ranked(all)[|goals|..];
    CountConcat(goals, Ranked(all)[|goals|..], HasSource(source));
  }

  // ---- Runs ----

  /** At input `j` the goal, aged since it was in the set after `k` inputs, is not pruned, replaced or crowded out. */
  ghost predicate Endures(engine: GoalGenesisEngine, inputs: seq<GoalGenesisInput>, k: nat, j: nat, g: DerivedGoal)
    requires 0 < k <= j <= |inputs|
  {
    var aged := Aged(g, TimePassed(inputs, k - 1, j - 1));
    && Scores(aged, engine.minUrgencyThreshold)
    && !Replaced(aged, Derived(engine, inputs[j - 1]).goals)
    && !CrowdedOut(aged, Run(engine, inputs, j).goals, engine)
  }

  /** A goal of a reachable set is in every later set, aged by the time passed, for as long as it endures. */
  lemma {:induction false} GoalsStayWhileTheyEndure(engine: GoalGenesisEngine, inputs: seq<GoalGenesisInput>, k: nat,
                                                    n: nat, g: DerivedGoal)
    requires 0 < k <= n <= |inputs| && g in Run(engine, inputs, k).goals
    requires forall j :: k < j <= n ==> Endures(engine, inputs, k, j, g)
    ensures Aged(g, TimePassed(inputs, k - 1, n - 1)) in Run(engine, inputs, n).goals
    decreases n
  {
    hide Aged, Decayed, Evolved, Derived, Replaced, Scores, CrowdedOut;
    InRange(engine, inputs, k, g);
    if n == k {
      AgedByNothing(g);
    } else {
      GoalsStayWhileTheyEndure(engine, inputs, k, n - 1, g);
      var current, input := Run(engine, inputs, n - 1), inputs[n - 1];
      var before := Aged(g, TimePassed(inputs, k - 1, n - 2));
      RunStamp(engine, inputs, n - 1);
      AgedTwice(g, TimePassed(inputs, k - 1, n - 2), TimeBetween(current.genesisTs, input.nowTs));
      assert Endures(engine, inputs, k, n, g);
      EveryGoalIsKeptOrCrowdedOut(engine, current, input, before, Aged(g, TimePassed(inputs, k - 1, n - 1)));
    }
  }

  lemma InRange(engine: GoalGenesisEngine, inputs: seq<GoalGenesisInput>, k: nat, g: DerivedGoal)
    requires 0 < k <= |inputs| && g in Run(engine, inputs, k).goals
    ensures WithinBounds(g) && g.decayRate >= 0.0
  {
    hide Run, FreshGoals;
    var i, origin := GoalsDecayByElapsedTime(engine, inputs, k, g);
    FreshInBounds(engine, inputs[i], origin);
  }

  lemma AgedByNothing(g: DerivedGoal)
    requires WithinBounds(g)
    ensures Aged(g, 0.0) == g
  {
  }

  lemma AgedTwice(g: DerivedGoal, a: real, b: real)
    requires WithinBounds(g) && g.decayRate >= 0.0 && a >= 0.0 && b >= 0.0
    ensures Aged(Aged(g, a), b) == Aged(g, a + b)
  {
    DecayedTwice(g, a, b);
    AgedIsDecayed(g, a);
    AgedIsDecayed(Aged(g, a), b);
    AgedIsDecayed(g, a + b);
    hide Aged, Decayed;
  }
}
