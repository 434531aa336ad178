/**
 Goal derivation and evolution (omokoda-core/src/goal_genesis.rs), over exact reals.
 Identifiers and description text play no part in ranking or merging and are not modelled.
 */
module GoalGenesis {
  import opened Arithmetic
  import opened StableSort

  datatype GoalSource = Experience | Knowledge | RemConsolidation | CalabasState | Constitutional

  datatype DerivedGoal = DerivedGoal(
    source: GoalSource,
    oduAlignment: bv8,
    urgency: real,
    alignmentScore: real,
    tier: nat,
    decayRate: real,
    createdAt: real)
  {
    function RankScore(): real { urgency * alignmentScore }

    /** Merging treats two goals as the same goal when these agree. */
    function Key(): (GoalSource, bv8) { (source, oduAlignment) }
  }

  datatype GoalSet = GoalSet(
    goals: seq<DerivedGoal>,
    genesisTs: real,
    calabashSnapshot: string,
    oduSeed: bv8)

  datatype TwinVector = NoTwin | Twin(identity: bv8, memory: bv8, field: bv8, simulation: bv8)

  datatype GoalGenesisInput = GoalGenesisInput(
    oduId: bv8,
    tier: nat,
    glyphCount: nat,
    remClusterCount: nat,
    calabashStateHash: string,
    hermeticBalance: real,
    recentActionCount: nat,
    recentFailureCount: nat,
    nowTs: real,
    twinVector: TwinVector)

  datatype GoalGenesisEngine = GoalGenesisEngine(
    larqlEnabled: bool,
    maxGoals: nat,
    minUrgencyThreshold: real)

  // ---- The five goal constructors ----

  function SurvivalGoal(input: GoalGenesisInput): DerivedGoal {
    DerivedGoal(
      CalabasState,
      if input.twinVector.Twin? then input.twinVector.identity else input.oduId,
      0.85,
      Clamp01(input.hermeticBalance * 0.3 + 0.7),
      input.tier,
      0.0002,
      input.nowTs)
  }

  function FailureLearningGoal(input: GoalGenesisInput): DerivedGoal {
    var memoryOdu := if input.twinVector.Twin? then input.twinVector.memory else input.oduId;
    var actions := if input.recentActionCount == 0 then 1 else input.recentActionCount;
    var failureRatio := input.recentFailureCount as real / actions as real;
    DerivedGoal(
      Experience,
      memoryOdu + 8,
      Clamp01(0.4 + failureRatio * 0.5),
      Clamp01(input.hermeticBalance * 0.5 + 0.3),
      input.tier,
      0.0005,
      input.nowTs)
  }

  function ConsolidationGoal(input: GoalGenesisInput): DerivedGoal {
    var simOdu := if input.twinVector.Twin? then input.twinVector.simulation else input.oduId;
    var densityBonus := RealMin(input.glyphCount as real / 100.0, 0.3);
    DerivedGoal(
      RemConsolidation,
      simOdu + 2,
      Clamp01((if input.remClusterCount > 0 then 0.5 else 0.3) + densityBonus),
      Clamp01(input.hermeticBalance),
      if input.tier < 2 then input.tier + 1 else 3,
      0.0003,
      input.nowTs)
  }

  function ConstitutionalGoal(input: GoalGenesisInput): DerivedGoal {
    DerivedGoal(
      Constitutional,
      match input.twinVector
      case NoTwin => input.oduId
      case Twin(a, b, c, d) => a ^ b ^ c ^ d,
      Clamp01(0.55 + input.hermeticBalance * 0.2),
      Clamp01(input.hermeticBalance * 0.4 + 0.6),
      input.tier,
      0.0001,
      input.nowTs)
  }

  function KnowledgeGapGoal(input: GoalGenesisInput): DerivedGoal {
    var densityUrgency := RealMin(input.glyphCount as real / 50.0, 0.4);
    DerivedGoal(
      Knowledge,
      input.oduId + 4,
      Clamp01(0.35 + densityUrgency),
      Clamp01(input.hermeticBalance * 0.6 + 0.2),
      input.tier,
      0.0004,
      input.nowTs)
  }

  // ---- Specification ----

  function RankedBefore(a: DerivedGoal, b: DerivedGoal): bool {
    a.RankScore() >= b.RankScore()
  }

  function Ranked(goals: seq<DerivedGoal>): (r: seq<DerivedGoal>)
    ensures |r| == |goals|
  {
    Sort(goals, RankedBefore)
  }

  function Finalized(engine: GoalGenesisEngine, goals: seq<DerivedGoal>, input: GoalGenesisInput): GoalSet {
    var n := if |goals| <= engine.maxGoals then |goals| else engine.maxGoals;
    GoalSet(Ranked(goals)[..n], input.nowTs, input.calabashStateHash, input.oduId)
  }

  function FreshGoals(engine: GoalGenesisEngine, input: GoalGenesisInput): seq<DerivedGoal> {
    [SurvivalGoal(input)]
    + (if input.recentFailureCount > 0 then [FailureLearningGoal(input)] else [])
    + (if input.glyphCount > 10 then [ConsolidationGoal(input)] else [])
    + [ConstitutionalGoal(input)]
    + (if engine.larqlEnabled then [KnowledgeGapGoal(input)] else [])
  }

  function Derived(engine: GoalGenesisEngine, input: GoalGenesisInput): GoalSet {
    Finalized(engine, FreshGoals(engine, input), input)
  }

  function Decayed(g: DerivedGoal, elapsed: real): DerivedGoal {
    g.(urgency := Clamp01(g.urgency - g.decayRate * elapsed))
  }

  function Keys(goals: seq<DerivedGoal>): set<(GoalSource, bv8)> {
    set g | g in goals :: g.Key()
  }

  function AllDecayed(goals: seq<DerivedGoal>, elapsed: real): seq<DerivedGoal> {
    seq(|goals|, i requires 0 <= i < |goals| => Decayed(goals[i], elapsed))
  }

  function AboveThreshold(engine: GoalGenesisEngine): DerivedGoal -> bool {
    (g: DerivedGoal) => g.RankScore() >= engine.minUrgencyThreshold
  }

  function Novel(keys: set<(GoalSource, bv8)>): DerivedGoal -> bool {
    (g: DerivedGoal) => g.Key() !in keys
  }

  /** The old goals that outlive decay, pruning and replacement, decayed. */
  function Carried(engine: GoalGenesisEngine, goals: seq<DerivedGoal>, elapsed: real,
                   freshKeys: set<(GoalSource, bv8)>): seq<DerivedGoal>
  {
    Filter(Filter(AllDecayed(goals, elapsed), AboveThreshold(engine)), Novel(freshKeys))
  }

  function Elapsed(current: GoalSet, input: GoalGenesisInput): (d: real)
    ensures d >= 0.0
  {
    RealMax(input.nowTs - current.genesisTs, 0.0)
  }

  function Candidates(engine: GoalGenesisEngine, current: GoalSet, input: GoalGenesisInput): seq<DerivedGoal> {
    var renewed := Derived(engine, input).goals;
    renewed + Carried(engine, current.goals, Elapsed(current, input), Keys(renewed))
  }

  function Evolved(engine: GoalGenesisEngine, current: GoalSet, input: GoalGenesisInput): GoalSet {
    Finalized(engine, Candidates(engine, current, input), input)
  }

  /** The set after `n` inputs: a derivation from the first, then one evolution per further input. */
  function Run(engine: GoalGenesisEngine, inputs: seq<GoalGenesisInput>, n: nat): GoalSet
    requires 0 < n <= |inputs|
  {
    if n == 1 then Derived(engine, inputs[0])
    else Evolved(engine, Run(engine, inputs, n - 1), inputs[n - 1])
  }

  // ---- The engine's methods ----

  method Finalize(engine: GoalGenesisEngine, goals: seq<DerivedGoal>, input: GoalGenesisInput)
    returns (result: GoalSet)
    ensures result == Finalized(engine, goals, input)
  {
    var sorted := Ranked(goals);
    if |sorted| > engine.maxGoals {
      sorted := sorted[..engine.maxGoals];
    }
    assert |goals| <= engine.maxGoals ==> Ranked(goals)[..|goals|] == Ranked(goals);
    result := GoalSet(sorted, input.nowTs, input.calabashStateHash, input.oduId);
  }

  method DeriveGoals(engine: GoalGenesisEngine, input: GoalGenesisInput) returns (result: GoalSet)
    ensures result == Derived(engine, input)
  {
    var goals := [];
    goals := goals + [SurvivalGoal(input)];
    if input.recentFailureCount > 0 {
      goals := goals + [FailureLearningGoal(input)];
    }
    if input.glyphCount > 10 {
      goals := goals + [ConsolidationGoal(input)];
    }
    goals := goals + [ConstitutionalGoal(input)];
    if engine.larqlEnabled {
      goals := goals + [KnowledgeGapGoal(input)];
    }
    assert goals == FreshGoals(engine, input);
    result := Finalize(engine, goals, input);
  }

  method Evolve(engine: GoalGenesisEngine, current: GoalSet, input: GoalGenesisInput) returns (result: GoalSet)
    ensures result == Evolved(engine, current, input)
  {
    var timeDelta := Elapsed(current, input);
    var goals := current.goals;
    for i := 0 to |goals|
      invariant |goals| == |current.goals|
      invariant forall k :: 0 <= k < i ==> goals[k] == Decayed(current.goals[k], timeDelta)
      invariant forall k :: i <= k < |goals| ==> goals[k] == current.goals[k]
    {
      goals := goals[i := Decayed(goals[i], timeDelta)];
    }
    var retained := Filter(goals, AboveThreshold(engine));
    var renewed := DeriveGoals(engine, input);
    var existingKeys := Keys(renewed.goals);
    var merged := renewed.goals;
    for i := 0 to |retained|
      invariant merged == renewed.goals + Filter(retained[..i], Novel(existingKeys))
    {
      FilterSnoc(retained, i, Novel(existingKeys));
      if retained[i].Key() !in existingKeys {
        merged := merged + [retained[i]];
      }
    }
    assert retained[..|retained|] == retained;
    assert goals == AllDecayed(current.goals, timeDelta);
    result := Finalize(engine, merged, input);
  }
}
