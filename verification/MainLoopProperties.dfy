/**
 What the event loop keeps over every run of pushes and drains (omokoda-core/src/main_loop.rs), and where it
 wedges.
 */
module MainLoopProperties {
  import opened Arithmetic
  import opened MainLoop

  /** How many user inputs a history answers. */
  function Inputs(history: seq<(LoopEvent, TurnOutcome)>): nat {
    if history == [] then 0
    else Inputs(history[..|history| - 1]) + if history[|history| - 1].0.UserInput? then 1 else 0
  }

  lemma InputsAfter(history: seq<(LoopEvent, TurnOutcome)>, entry: (LoopEvent, TurnOutcome))
    ensures Inputs(history + [entry]) == Inputs(history) + if entry.0.UserInput? then 1 else 0
  {
    assert (history + [entry])[..|history|] == history;
  }

  /** How a loop may differ from an earlier one. */
  ghost predicate Later(a: Loop, b: Loop, config: Config) {
    && a.turnHistory <= b.turnHistory
    && (a.state.Stopped? ==> b == a.(queue := b.queue))
    && a.turnCount <= b.turnCount
    && b.turnCount - a.turnCount == Inputs(b.turnHistory) - Inputs(a.turnHistory)
    && (0 < config.autoCompactThreshold && a.turnCount <= config.autoCompactThreshold ==>
          b.turnCount <= config.autoCompactThreshold)
  }

  lemma HandledIsLater(loop: Loop, event: LoopEvent, config: Config)
    requires !loop.state.Stopped? && !CompactionDue(loop, config)
    ensures Later(loop, Handled(loop, event).0, config)
  {
    hide Inputs;
    var next := Handled(loop, event).0;
    if |next.turnHistory| > |loop.turnHistory| {
      InputsAfter(loop.turnHistory, next.turnHistory[|loop.turnHistory|]);
    }
  }

  lemma PoppedIsLater(loop: Loop, config: Config)
    requires loop.queue != []
    ensures Later(loop, Popped(loop, config).0, config)
    ensures Popped(loop, config).1.LoopStopped? ==> Popped(loop, config).0.state.Stopped?
  {
    hide Inputs, Handled;
    var rest := loop.(queue := loop.queue[1..]);
    if !loop.state.Stopped? && !CompactionDue(loop, config) && !SwitchArmed(loop, config) {
      HandledIsLater(rest, loop.queue[0], config);
      StopsOnlyStopped(rest, loop.queue[0]);
    }
  }

  lemma StopsOnlyStopped(loop: Loop, event: LoopEvent)
    ensures Handled(loop, event).1.LoopStopped? ==> Handled(loop, event).0.state.Stopped?
  {
  }

  lemma {:induction false} DrainedIsLater(loop: Loop, n: nat, config: Config)
    ensures Later(loop, Drained(loop, n, config).0, config)
    decreases n
  {
    hide Inputs, Popped;
    if n == 0 || loop.queue == [] {
    } else {
      PoppedIsLater(loop, config);
      DrainedIsLater(Popped(loop, config).0, n - 1, config);
    }
  }

  /**
   Over every run: history only grows, turns count answered inputs, stopping is final, and a threshold is never
   passed.
   */
  lemma {:induction false} RunIsLater(start: Loop, ops: seq<Op>, n: nat, config: Config)
    requires n <= |ops|
    ensures Later(start, Run(start, ops, n, config), config)
  {
    hide Inputs, Drained;
    if n == 0 {
    } else {
      RunIsLater(start, ops, n - 1, config);
      var before := Run(start, ops, n - 1, config);
      if ops[n - 1].Drain? { DrainedIsLater(before, Min(ops[n - 1].max, |before.queue|), config); }
    }
  }

  lemma TurnsNeverPassTheThreshold(provider: string, ops: seq<Op>, n: nat, config: Config)
    requires n <= |ops| && config.autoCompactThreshold > 0
    ensures
      var loop := Run(Loop(Idle, [], 0, provider, []), ops, n, config);
      loop.turnCount <= config.autoCompactThreshold && loop.turnCount == Inputs(loop.turnHistory)
  {
    RunIsLater(Loop(Idle, [], 0, provider, []), ops, n, config);
  }

  lemma {:induction false} StoppedIsForever(loop: Loop, ops: seq<Op>, n: nat, config: Config)
    requires n <= |ops| && loop.state.Stopped?
    ensures
      var later := Run(loop, ops, n, config);
      later == loop.(queue := later.queue)
  {
    RunIsLater(loop, ops, n, config);
  }

  /** Nothing lowers the turn count, so once it has reached the threshold no user input is ever answered again. */
  lemma NoTurnsPastTheThreshold(loop: Loop, ops: seq<Op>, n: nat, config: Config)
    requires n <= |ops| && loop.turnCount == config.autoCompactThreshold > 0
    ensures
      var later := Run(loop, ops, n, config);
      later.turnCount == loop.turnCount && Inputs(later.turnHistory) == Inputs(loop.turnHistory)
  {
    RunIsLater(loop, ops, n, config);
  }

  // ---- Where the loop wedges ----

  /** Popping changes nothing exactly when it puts a busy input back. */
  lemma PopDoesNothingIff(loop: Loop, config: Config)
    requires loop.queue != []
    ensures Popped(loop, config).0 == loop <==> Requeues(loop, config)
  {
    PopKeepsOrder(loop, config);
    if Requeues(loop, config) { assert [loop.queue[0]] + loop.queue[1..] == loop.queue; }
  }

  lemma {:induction false} DrainDoesNothing(loop: Loop, n: nat, config: Config)
    requires loop.queue != [] && Requeues(loop, config)
    ensures Drained(loop, n, config).0 == loop
    decreases n
  {
    PopDoesNothingIff(loop, config);
    if n == 0 {
    } else {
      DrainDoesNothing(loop, n - 1, config);
      assert !Popped(loop, config).1.LoopStopped?;
    }
  }

  /** A loop with a busy input at its head is wedged for good: pushes only lengthen the queue, drains do nothing. */
  lemma {:induction false} WedgedForever(start: Loop, ops: seq<Op>, n: nat, config: Config)
    requires n <= |ops| && start.queue != [] && Requeues(start, config)
    ensures
      var later := Run(start, ops, n, config);
      later == start.(queue := later.queue) && start.queue <= later.queue
  {
    hide Drained;
    if n == 0 {
    } else {
      WedgedForever(start, ops, n - 1, config);
      var before := Run(start, ops, n - 1, config);
      assert Requeues(before, config);
      if ops[n - 1].Drain? { DrainDoesNothing(before, Min(ops[n - 1].max, |before.queue|), config); }
    }
  }

  /**
   How it gets there: when compaction is due and no model switch is armed, the next event is dropped and an input
   behind it wedges the loop.
   */
  lemma ThresholdWedges(loop: Loop, config: Config)
    requires !loop.state.Stopped? && CompactionDue(loop, config) && !SwitchArmed(loop, config)
    requires |loop.queue| >= 2 && loop.queue[1].UserInput?
    ensures
      var next := Drained(loop, 2, config).0;
      next == loop.(state := Compacting, queue := loop.queue[1..]) && Requeues(next, config)
  {
    var mid := loop.(state := Compacting, queue := loop.queue[1..]);
    assert Popped(loop, config) == (mid, CompactNeeded);
    DrainDoesNothing(mid, 1, config);
  }
}
