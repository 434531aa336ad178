/**
 Which configurations of the event loop can wedge (omokoda-core/src/main_loop.rs): a positive compaction threshold,
 or a fallback provider with a positive turn interval, and no others.
 */
module MainLoopWedges {
  import opened Arithmetic
  import opened MainLoop
  import opened MainLoopProperties
  import opened Wrappers

  /** A busy input is at the head of the queue, where it stays. */
  predicate Wedged(loop: Loop, config: Config) {
    loop.queue != [] && Requeues(loop, config)
  }

  function NewLoop(provider: string): Loop {
    Loop(Idle, [], 0, provider, [])
  }

  predicate CanCompact(config: Config) {
    config.autoCompactThreshold > 0
  }

  predicate CanSwitch(config: Config) {
    config.modelSwitchAfterTurns.Some? && config.modelSwitchAfterTurns.value > 0 && config.fallbackProvider.Some?
  }

  // ---- The second route: an automatic model switch ----

  /**
   When a switch is armed and no compaction is due, the next event is dropped and an input behind it wedges the
   loop.
   */
  lemma SwitchWedges(loop: Loop, config: Config)
    requires !loop.state.Stopped? && SwitchArmed(loop, config)
    requires !IsMultipleOf(loop.turnCount, config.autoCompactThreshold)
    requires |loop.queue| >= 2 && loop.queue[1].UserInput?
    ensures
      var next := Drained(loop, 2, config).0;
      && next == loop.(state := SwitchingModel, activeProvider := config.fallbackProvider.value,
          queue := loop.queue[1..])
      && Requeues(next, config)
  {
    var mid := loop.(state := SwitchingModel, activeProvider := config.fallbackProvider.value,
        queue := loop.queue[1..]);
    assert Popped(loop, config) == (mid, ModelSwitch(config.fallbackProvider.value));
    DrainDoesNothing(mid, 1, config);
  }

  // ---- Configurations that never wedge ----

  lemma QuietConfig(loop: Loop, config: Config)
    requires !CanCompact(config) && !CanSwitch(config)
    ensures !CompactionDue(loop, config) && !SwitchArmed(loop, config)
  {
  }

  predicate Receptive(loop: Loop) {
    loop.state.Idle? || loop.state.Paused? || loop.state.Stopped?
  }

  lemma {:induction false} DrainStaysReceptive(loop: Loop, n: nat, config: Config)
    requires !CanCompact(config) && !CanSwitch(config) && Receptive(loop)
    ensures Receptive(Drained(loop, n, config).0)
    decreases n
  {
    if n == 0 || loop.queue == [] {
    } else {
      QuietConfig(loop, config);
      DrainStaysReceptive(Popped(loop, config).0, n - 1, config);
    }
  }

  lemma {:induction false} StaysReceptive(start: Loop, ops: seq<Op>, n: nat, config: Config)
    requires n <= |ops| && !CanCompact(config) && !CanSwitch(config) && Receptive(start)
    ensures Receptive(Run(start, ops, n, config)) && !Wedged(Run(start, ops, n, config), config)
  {
    hide Drained;
    if n == 0 {
    } else {
      StaysReceptive(start, ops, n - 1, config);
      var before := Run(start, ops, n - 1, config);
      if ops[n - 1].Drain? { DrainStaysReceptive(before, Min(ops[n - 1].max, |before.queue|), config); }
    }
  }

  // ---- Configurations that can ----

  lemma {:induction false} RunConcat(start: Loop, a: seq<Op>, b: seq<Op>, n: nat, config: Config)
    requires n <= |b|
    ensures Run(start, a + b, |a| + n, config) == Run(Run(start, a, |a|, config), b, n, config)
  {
    hide After;
    if n == 0 {
      RunPrefix(start, a, a + b, |a|, config);
    } else {
      RunConcat(start, a, b, n - 1, config);
    }
  }

  lemma {:induction false} RunPrefix(start: Loop, a: seq<Op>, b: seq<Op>, n: nat, config: Config)
    requires n <= |a| && n <= |b| && forall i :: 0 <= i < n ==> a[i] == b[i]
    ensures Run(start, a, n, config) == Run(start, b, n, config)
  {
    hide After;
    if n == 0 {
    } else {
      RunPrefix(start, a, b, n - 1, config);
    }
  }

  /** Pushing an event onto an empty queue and draining it processes it. */
  function Cycle(event: LoopEvent): seq<Op> {
    [Push(event), Drain(1)]
  }

  lemma CycleProcesses(loop: Loop, event: LoopEvent, config: Config)
    requires loop.queue == [] && !loop.state.Stopped? && config.queueCapacity > 0
    requires !Processed(loop, event, config).1.LoopStopped?
    ensures Run(loop, Cycle(event), 2, config) == Processed(loop, event, config).0
  {
    hide Processed;
    var pushed := loop.(queue := [event]);
    assert Run(loop, Cycle(event), 1, config) == pushed by {
      assert Run(loop, Cycle(event), 0, config) == loop;
      assert loop.queue + [event] == [event];
    }
    assert pushed.(queue := pushed.queue[1..]) == loop;
    DrainedIs(pushed, 1, config);
    DrainedIs(Processed(loop, event, config).0, 0, config);
  }

  /** A run that can be continued: it ends in `loop`. */
  ghost predicate Reaches(start: Loop, ops: seq<Op>, loop: Loop, config: Config) {
    Run(start, ops, |ops|, config) == loop
  }

  lemma ReachNext(start: Loop, ops: seq<Op>, loop: Loop, event: LoopEvent, config: Config) returns (more: seq<Op>)
    requires Reaches(start, ops, loop, config)
    requires loop.queue == [] && !loop.state.Stopped? && config.queueCapacity > 0
    requires !Processed(loop, event, config).1.LoopStopped?
    ensures Reaches(start, more, Processed(loop, event, config).0, config)
  {
    hide Processed, Run;
    more := ops + Cycle(event);
    RunConcat(start, ops, Cycle(event), 2, config);
    CycleProcesses(loop, event, config);
  }

  /** Whether the turn count alone asks for compaction or, away from the fallback provider, for a switch. */
  predicate Pressing(turns: nat, config: Config) {
    IsMultipleOf(turns, config.autoCompactThreshold)
        || (CanSwitch(config) && IsMultipleOf(turns, config.modelSwitchAfterTurns.value))
  }

  /** Answering inputs one at a time takes an idle loop to the first pressing turn count. */
  lemma {:induction false} TakeTurns(start: Loop, turns: nat, config: Config) returns (ops: seq<Op>, loop: Loop)
    requires start.state == Idle && start.queue == [] && start.turnCount == 0 && config.queueCapacity > 0
    requires forall t :: 0 < t < turns ==> !Pressing(t, config)
    ensures Reaches(start, ops, loop, config)
    ensures loop.state == Idle && loop.queue == [] && loop.turnCount == turns
        && loop.activeProvider == start.activeProvider
  {
    if turns == 0 {
      return [], start;
    }
    var input := UserInput("", false);
    ops, loop := TakeTurns(start, turns - 1, config);
    assert turns - 1 > 0 ==> !Pressing(turns - 1, config);
    ops := ReachNext(start, ops, loop, input, config);
    loop := Processed(loop, input, config).0;
  }

  /**
   From a pressing turn count away from the fallback provider, at most three dropped events leave a loop that
   takes no input.
   */
  lemma Blocked(start: Loop, ops: seq<Op>, loop: Loop, config: Config) returns (more: seq<Op>, end: Loop)
    requires Reaches(start, ops, loop, config) && config.queueCapacity > 0
    requires loop.state == Idle && loop.queue == [] && loop.turnCount > 0 && Pressing(loop.turnCount, config)
    requires config.fallbackProvider != Some(loop.activeProvider)
    ensures Reaches(start, more, end, config)
    ensures end.queue == [] && !end.state.Stopped? && !end.state.CanAcceptInput() && !Preempted(end, config)
  {
    more, end := ops, loop;
    if CompactionDue(end, config) {
      more := ReachNext(start, more, end, Resume, config);
      end := end.(state := Compacting);
    }
    if SwitchArmed(end, config) {
      more := ReachNext(start, more, end, Resume, config);
      end := end.(state := SwitchingModel, activeProvider := config.fallbackProvider.value);
    }
    if CompactionDue(end, config) {
      more := ReachNext(start, more, end, Resume, config);
      end := end.(state := Compacting);
    }
  }

  lemma InputWedges(start: Loop, ops: seq<Op>, loop: Loop, config: Config) returns (more: seq<Op>)
    requires Reaches(start, ops, loop, config) && config.queueCapacity > 0
    requires loop.queue == [] && !loop.state.Stopped? && !loop.state.CanAcceptInput() && !Preempted(loop, config)
    ensures Wedged(Run(start, more, |more|, config), config)
  {
    var last := [Push(UserInput("", false))];
    more := ops + last;
    RunConcat(start, ops, last, 1, config);
    assert Run(loop, last, 0, config) == loop;
    assert Run(loop, last, 1, config) == loop.(queue := [UserInput("", false)]);
  }

  lemma MultiplesOf(d: nat)
    requires d > 0
    ensures IsMultipleOf(d, d) && forall t :: 0 < t < d ==> !IsMultipleOf(t, d)
  {
  }

  /** The first turn count, from 1 on, at which the configuration presses. */
  lemma FirstPressing(config: Config) returns (turns: nat)
    requires CanCompact(config) || CanSwitch(config)
    ensures turns > 0 && Pressing(turns, config) && forall t :: 0 < t < turns ==> !Pressing(t, config)
  {
    hide IsMultipleOf;
    var threshold, interval := config.autoCompactThreshold,
      if config.modelSwitchAfterTurns.Some? then config.modelSwitchAfterTurns.value else 0;
    if CanCompact(config) { MultiplesOf(threshold); } else { ZeroHasNoMultiples(); }
    if CanSwitch(config) { MultiplesOf(interval); }
    turns :=
      if !CanSwitch(config) then threshold
      else if !CanCompact(config) then interval
      else Min(threshold, interval);
  }

  lemma ZeroHasNoMultiples()
    ensures forall t :: t > 0 ==> !IsMultipleOf(t, 0)
  {
  }

  /** A new loop can first be moved off the fallback provider. */
  lemma LeaveFallback(provider: string, config: Config) returns (ops: seq<Op>, loop: Loop)
    requires config.queueCapacity > 0
    ensures Reaches(NewLoop(provider), ops, loop, config)
    ensures loop.state == Idle && loop.queue == [] && loop.turnCount == 0
        && config.fallbackProvider != Some(loop.activeProvider)
  {
    ops, loop := [], NewLoop(provider);
    if config.fallbackProvider == Some(provider) {
      var other := SwitchModel(provider + "'");
      assert |provider + "'"| != |provider|;
      ops := ReachNext(loop, ops, loop, other, config);
      loop := Processed(loop, other, config).0;
    }
  }

  lemma CanWedge(provider: string, config: Config) returns (ops: seq<Op>)
    requires config.queueCapacity > 0 && (CanCompact(config) || CanSwitch(config))
    ensures Wedged(Run(NewLoop(provider), ops, |ops|, config), config)
  {
    hide *;
    var before, start := LeaveFallback(provider, config);
    var turns := FirstPressing(config);
    var middle, loop := TakeTurns(start, turns, config);
    var after, end := Blocked(start, middle, loop, config);
    var more := InputWedges(start, after, end, config);
    ops := before + more;
    ReachThen(NewLoop(provider), before, start, more, config);
  }

  lemma ReachThen(start: Loop, before: seq<Op>, mid: Loop, more: seq<Op>, config: Config)
    requires Reaches(start, before, mid, config)
    ensures Run(start, before + more, |before + more|, config) == Run(mid, more, |more|, config)
  {
    hide Run;
    RunConcat(start, before, more, |more|, config);
  }

  /** No run of pushes and drains from a new loop ever wedges it. */
  ghost predicate NeverWedges(provider: string, config: Config) {
    forall ops: seq<Op>, n: nat :: n <= |ops| ==> !Wedged(Run(NewLoop(provider), ops, n, config), config)
  }

  /** Without room for an event nothing is ever accepted. */
  lemma {:induction false} NoRoom(provider: string, ops: seq<Op>, n: nat, config: Config)
    requires n <= |ops| && config.queueCapacity == 0
    ensures Run(NewLoop(provider), ops, n, config) == NewLoop(provider)
  {
    if n == 0 {
    } else {
      NoRoom(provider, ops, n - 1, config);
    }
  }

  /**
   A loop never wedges exactly when its queue holds nothing, or its compaction threshold is zero and no positive
   switching interval comes with a fallback provider. The initial provider does not matter.
   */
  lemma NeverWedgesIff(provider: string, config: Config)
    ensures NeverWedges(provider, config)
       <==> config.queueCapacity == 0 || (!CanCompact(config) && !CanSwitch(config))
  {
    hide Run, Requeues, CanCompact, CanSwitch;
    if config.queueCapacity == 0 {
      forall ops: seq<Op>, n: nat | n <= |ops| ensures !Wedged(Run(NewLoop(provider), ops, n, config), config) {
        NoRoom(provider, ops, n, config);
      }
    } else if !CanCompact(config) && !CanSwitch(config) {
      forall ops: seq<Op>, n: nat | n <= |ops| ensures !Wedged(Run(NewLoop(provider), ops, n, config), config) {
        StaysReceptive(NewLoop(provider), ops, n, config);
      }
    } else {
      var ops := CanWedge(provider, config);
    }
  }
}
