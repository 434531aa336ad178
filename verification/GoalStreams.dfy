/**
 The five streams of goals (omokoda-core/src/goal_genesis.rs) by what a reader sees of them: the Odù they answer to,
 the score the balance gives them, and how many seconds their goals last. Hence how old a goal can be.
 */
module GoalStreams {
  import opened Arithmetic
  import opened StableSort
  import opened GoalGenesis
  import opened GoalGenesisProperties
  import opened GoalGenesisEvolution

  // ---- Which Odù ----

  /** The state vector, or four times the birth Odù without one. */
  function Vector(input: GoalGenesisInput): TwinVector {
    if input.twinVector.NoTwin? then Twin(input.oduId, input.oduId, input.oduId, input.oduId) else input.twinVector
  }

  /** What two inputs must agree on for their goals of a stream to be the same goal. */
  function Dimension(source: GoalSource, input: GoalGenesisInput): bv8 {
    var v := Vector(input);
    match source
    case CalabasState => v.identity
    case Experience => v.memory
    case RemConsolidation => v.simulation
    case Knowledge => input.oduId
    case Constitutional =>
      if input.twinVector.NoTwin? then input.oduId else v.identity ^ v.memory ^ v.field ^ v.simulation
  }

  /** The goal that a stream makes of an input. */
  function GoalFrom(source: GoalSource, input: GoalGenesisInput): DerivedGoal {
    match source
    case CalabasState => SurvivalGoal(input)
    case Experience => FailureLearningGoal(input)
    case RemConsolidation => ConsolidationGoal(input)
    case Constitutional => ConstitutionalGoal(input)
    case Knowledge => KnowledgeGapGoal(input)
  }

  lemma FreshByStream(engine: GoalGenesisEngine, input: GoalGenesisInput, g: DerivedGoal)
    requires g in FreshGoals(engine, input)
    ensures g == GoalFrom(g.source, input)
  {
    hide Clamp01;
  }

  /** How far from its dimension a stream's Odù is. */
  function Offset(source: GoalSource): bv8 {
    match source
    case Experience => 8
    case RemConsolidation => 2
    case Knowledge => 4
    case _ => 0
  }

  lemma AlignedBy(source: GoalSource, input: GoalGenesisInput)
    ensures GoalFrom(source, input).oduAlignment == Dimension(source, input) + Offset(source)
  {
    hide Clamp01;
    match source
    case CalabasState => hide FailureLearningGoal, ConsolidationGoal, ConstitutionalGoal, KnowledgeGapGoal;
    case Experience => hide SurvivalGoal, ConsolidationGoal, ConstitutionalGoal, KnowledgeGapGoal;
    case RemConsolidation => hide SurvivalGoal, FailureLearningGoal, ConstitutionalGoal, KnowledgeGapGoal;
    case Constitutional => hide SurvivalGoal, FailureLearningGoal, ConsolidationGoal, KnowledgeGapGoal;
    case Knowledge => hide SurvivalGoal, FailureLearningGoal, ConsolidationGoal, ConstitutionalGoal;
  }

  lemma OffsetsCancel(a: bv8, b: bv8, c: bv8)
    ensures a + c == b + c <==> a == b
  {
  }

  /** The goals of one stream from two inputs merge exactly when the inputs agree in that stream's dimension. */
  lemma SameGoalIff(engine: GoalGenesisEngine, a: GoalGenesisInput, b: GoalGenesisInput, g: DerivedGoal, h: DerivedGoal)
    requires g in FreshGoals(engine, a) && h in FreshGoals(engine, b) && g.source == h.source
    ensures g.Key() == h.Key() <==> Dimension(g.source, a) == Dimension(g.source, b)
  {
    hide FreshGoals, GoalFrom, Dimension, Offset;
    FreshByStream(engine, a, g);
    FreshByStream(engine, b, h);
    AlignedBy(g.source, a);
    AlignedBy(g.source, b);
    OffsetsCancel(Dimension(g.source, a), Dimension(g.source, b), Offset(g.source));
  }

  // ---- How well aligned, and how urgent ----

  /** The score at balance 0 and at balance 1; in between it grows evenly. */
  function ScoreRange(source: GoalSource): (real, real) {
    match source
    case CalabasState => (0.7, 1.0)
    case Experience => (0.3, 0.8)
    case RemConsolidation => (0.0, 1.0)
    case Constitutional => (0.6, 1.0)
    case Knowledge => (0.2, 0.8)
  }

  /** The seconds after which a goal of the stream has no urgency left. */
  function Lifetime(source: GoalSource, input: GoalGenesisInput): real {
    match source
    case CalabasState => 4250.0
    case Experience =>
      RealMin(2000.0, 800.0 + 1000.0 * input.recentFailureCount as real / Max(1, input.recentActionCount) as real)
    case RemConsolidation =>
      ((if input.remClusterCount > 0 then 5000.0 else 3000.0) + RealMin(100.0 * input.glyphCount as real, 3000.0)) / 3.0
    case Constitutional => RealMax(0.0, RealMin(10000.0, 5500.0 + 2000.0 * input.hermeticBalance))
    case Knowledge => 875.0 + RealMin(50.0 * input.glyphCount as real, 1000.0)
  }

  lemma ScoreGrowsEvenly(engine: GoalGenesisEngine, input: GoalGenesisInput, g: DerivedGoal)
    requires g in FreshGoals(engine, input) && 0.0 <= input.hermeticBalance <= 1.0
    ensures
      var (low, high) := ScoreRange(g.source);
      g.alignmentScore == low + (high - low) * input.hermeticBalance
  {
    hide FreshGoals, FailureLearningGoal, ConsolidationGoal, ConstitutionalGoal, KnowledgeGapGoal;
    FreshByStream(engine, input, g);
    FailureBounds(input);
    ConsolidationBounds(input);
    ConstitutionalBounds(input);
    KnowledgeBounds(input);
  }

  /** Goals are stamped, and of the agent's tier from 1 to 3, but one up, if there is one, for consolidation. */
  lemma StampAndTier(engine: GoalGenesisEngine, input: GoalGenesisInput, g: DerivedGoal)
    requires g in FreshGoals(engine, input)
    ensures g.createdAt == input.nowTs
    ensures 1 <= input.tier <= 3 ==>
      g.tier == if g.source.RemConsolidation? && input.tier < 3 then input.tier + 1 else input.tier
  {
    hide FreshGoals, Clamp01;
    FreshByStream(engine, input, g);
  }

  /** A goal loses its urgency when its rate has used it up. */
  lemma FadesIff(g: DerivedGoal, elapsed: real, lifetime: real)
    requires 0.0 <= g.urgency <= 1.0 && g.decayRate > 0.0 && elapsed >= 0.0 && g.decayRate * lifetime == g.urgency
    ensures Aged(g, elapsed).urgency == 0.0 <==> elapsed >= lifetime
  {
    if elapsed >= lifetime {
      assert g.decayRate * (elapsed - lifetime) >= 0.0;
    } else {
      assert g.decayRate * (lifetime - elapsed) > 0.0;
    }
    assert g.decayRate * elapsed == g.urgency + g.decayRate * (elapsed - lifetime);
    assert g.decayRate * elapsed >= 0.0;
  }

  lemma RateTimesLifetime(source: GoalSource, input: GoalGenesisInput)
    ensures
      var g := GoalFrom(source, input);
      g.decayRate > 0.0 && 0.0 <= g.urgency <= 1.0 && g.decayRate * Lifetime(source, input) == g.urgency
  {
    match source
    case Experience =>
      var ratio := input.recentFailureCount as real / Max(1, input.recentActionCount) as real;
      assert ratio >= 0.0;
      assert 1000.0 * input.recentFailureCount as real / Max(1, input.recentActionCount) as real == 1000.0 * ratio;
    case _ =>
  }

  /** A fresh goal loses its urgency after exactly the lifetime of its stream. */
  lemma LastsItsLifetime(engine: GoalGenesisEngine, input: GoalGenesisInput, g: DerivedGoal, elapsed: real)
    requires g in FreshGoals(engine, input) && elapsed >= 0.0
    ensures Aged(g, elapsed).urgency == 0.0 <==> elapsed >= Lifetime(g.source, input)
  {
    hide FreshGoals, GoalFrom, Lifetime;
    FreshByStream(engine, input, g);
    RateTimesLifetime(g.source, input);
    FadesIff(g, elapsed, Lifetime(g.source, input));
  }

  // ---- How old a goal can be ----

  /**
   Under a positive threshold, every goal of a reachable set was derived less than its stream's lifetime ago, counting
   the time that passed since, or just now.
   */
  lemma NoGoalOutlivesItsStream(engine: GoalGenesisEngine, inputs: seq<GoalGenesisInput>, n: nat, g: DerivedGoal)
    returns (k: nat)
    requires 0 < n <= |inputs| && g in Run(engine, inputs, n).goals && engine.minUrgencyThreshold > 0.0
    ensures k < n && g.createdAt == inputs[k].nowTs
    ensures k == n - 1 || TimePassed(inputs, k, n - 1) < Lifetime(g.source, inputs[k])
  {
    hide Run, FreshGoals, Aged, Decayed, Lifetime, Derived, Evolved, Replaced;
    if IsDerived(engine, inputs, n, g) {
      k := n - 1;
      DerivedAreFresh(engine, inputs[k], g);
      StampAndTier(engine, inputs[k], g);
    } else {
      var origin;
      k, origin := GoalsDecayByElapsedTime(engine, inputs, n, g);
      var elapsed := TimePassed(inputs, k, n - 1);
      AgedIsDecayed(origin, elapsed);
      StampAndTier(engine, inputs[k], origin);
      LastsItsLifetime(engine, inputs[k], origin, elapsed);
      OnlyUrgencyAges(origin, elapsed);
      CarriedIsUrgent(engine, inputs, n, g);
    }
  }

  ghost predicate IsDerived(engine: GoalGenesisEngine, inputs: seq<GoalGenesisInput>, n: nat, g: DerivedGoal)
    requires 0 < n <= |inputs|
  {
    g in Derived(engine, inputs[n - 1]).goals
  }

  lemma CarriedIsUrgent(engine: GoalGenesisEngine, inputs: seq<GoalGenesisInput>, n: nat, g: DerivedGoal)
    requires 0 < n <= |inputs| && g in Run(engine, inputs, n).goals && !IsDerived(engine, inputs, n, g)
    requires engine.minUrgencyThreshold > 0.0
    ensures g.urgency != 0.0
  {
    hide Derived, Evolved, Replaced;
    if n > 1 { var before := NothingElseIsKept(engine, Run(engine, inputs, n - 1), inputs[n - 1], g); }
  }

  lemma OnlyUrgencyAges(g: DerivedGoal, elapsed: real)
    ensures Aged(g, elapsed).(urgency := 0.0) == g.(urgency := 0.0)
  {
  }
}
