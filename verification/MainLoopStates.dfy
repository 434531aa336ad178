/**
 What the outcomes of the event loop tell (omokoda-core/src/main_loop.rs): its state, its provider, the answer to every
 event in the history, and which events bring a busy loop back to taking input.
 */
module MainLoopStates {
  import opened Arithmetic
  import opened MainLoop
  import opened MainLoopProperties
  import opened MainLoopWedges

  // ---- Coming back from being busy ----

  /** Neither ready for input nor stopped. */
  predicate IsBusy(state: LoopState) {
    !state.Idle? && !state.Paused? && !state.Stopped?
  }

  /** An event that is read leaves a busy loop ready for input exactly when it is one of four; one other stops it. */
  lemma BusyAcceptsAgainIff(loop: Loop, config: Config)
    requires loop.queue != [] && IsBusy(loop.state) && !Unread(loop, config)
    ensures
      var event, next := loop.queue[0], Popped(loop, config).0.state;
      && (next.Idle? <==> event.ToolResult? || event.SwitchModel? || event.Compact?)
      && (next.Paused? <==> event.Pause?)
      && (next.Stopped? <==> event.Shutdown?)
      && (IsBusy(next) ==> next == loop.state)
  {
    UnreadIff(loop, config);
  }

  /** A paused loop goes back to work for any event but a pause or a finished background task; one stops it. */
  lemma PausedResumesIff(loop: Loop, config: Config)
    requires loop.queue != [] && loop.state.Paused? && !Unread(loop, config)
    ensures
      var event, next := loop.queue[0], Popped(loop, config).0.state;
      && (next.Paused? <==> event.Pause? || event.BackgroundDone?)
      && (next.Stopped? <==> event.Shutdown?)
      && (next.Paused? || next.Stopped? || next.Idle?)
  {
    UnreadIff(loop, config);
  }

  /** An idle loop stays idle for any event but a pause or a shutdown. */
  lemma IdleStaysIff(loop: Loop, config: Config)
    requires loop.queue != [] && loop.state.Idle? && !Unread(loop, config)
    ensures
      var event, next := loop.queue[0], Popped(loop, config).0.state;
      && (next.Paused? <==> event.Pause?)
      && (next.Stopped? <==> event.Shutdown?)
      && (next.Paused? || next.Stopped? || next.Idle?)
  {
    UnreadIff(loop, config);
  }

  // ---- Outcomes ----

  /** Every outcome tells the state the loop is left in, up to whether a switch or a compaction was asked for. */
  predicate Tells(outcome: TurnOutcome, state: LoopState) {
    match outcome
    case Continue(newState, _) => state == newState
    case LoopStopped => state.Stopped?
    case ModelSwitch(_) => state.Idle? || state.SwitchingModel?
    case CompactNeeded => state.Idle? || state.Compacting?
  }

  lemma OutcomeTells(loop: Loop, config: Config)
    requires loop.queue != []
    ensures
      var (next, outcome) := Popped(loop, config);
      && Tells(outcome, next.state)
      && next.activeProvider == (if outcome.ModelSwitch? then outcome.toProvider else loop.activeProvider)
      && (outcome.Continue? && outcome.output.Busy? <==> next == loop)
  {
    PopDoesNothingIff(loop, config);
  }

  /** The provider of the last switch among the outcomes. */
  function LastSwitch(outcomes: seq<TurnOutcome>, provider: string): string {
    if outcomes == [] then provider
    else if outcomes[|outcomes| - 1].ModelSwitch? then outcomes[|outcomes| - 1].toProvider
    else LastSwitch(outcomes[..|outcomes| - 1], provider)
  }

  lemma {:induction false} LastSwitchAfter(outcomes: seq<TurnOutcome>, first: TurnOutcome, provider: string)
    ensures LastSwitch([first] + outcomes, provider)
         == LastSwitch(outcomes, if first.ModelSwitch? then first.toProvider else provider)
  {
    var all := [first] + outcomes;
    if outcomes == [] {
      assert all[..0] == [];
    } else {
      assert all[..|all| - 1] == [first] + outcomes[..|outcomes| - 1];
      LastSwitchAfter(outcomes[..|outcomes| - 1], first, provider);
    }
  }

  /** A drain's outcomes tell the provider it ends with, and its last outcome the state. */
  lemma {:induction false} DrainTells(loop: Loop, n: nat, config: Config)
    ensures
      var (last, outcomes) := Drained(loop, n, config);
      && |outcomes| <= n
      && last.activeProvider == LastSwitch(outcomes, loop.activeProvider)
      && if outcomes == [] then last == loop else Tells(outcomes[|outcomes| - 1], last.state)
    decreases n
  {
    hide Popped, LastSwitch;
    NoSwitch(loop.activeProvider);
    if n == 0 || loop.queue == [] {
    } else {
      var (next, outcome) := Popped(loop, config);
      OutcomeTells(loop, config);
      DrainTells(next, n - 1, config);
      LastSwitchAfter(Drained(next, n - 1, config).1, outcome, loop.activeProvider);
      LastSwitchAfter([], outcome, loop.activeProvider);
      NoSwitch(if outcome.ModelSwitch? then outcome.toProvider else loop.activeProvider);
      assert [outcome] + [] == [outcome];
    }
  }

  lemma NoSwitch(provider: string)
    ensures LastSwitch([], provider) == provider
  {
  }

  // ---- The history ----

  /** Entry `i` answers its event: an input with the number of its turn, a result with its own text. */
  predicate Answers(history: seq<(LoopEvent, TurnOutcome)>, i: nat)
    requires i < |history|
  {
    var (event, outcome) := history[i];
    match event
    case UserInput(_, _) => outcome == Continue(Idle, Turn(Inputs(history[..i + 1])))
    case ToolResult(tool, output) => outcome == Continue(Idle, ToolOutput(tool, output))
    case BackgroundDone(taskId, output) => outcome.Continue? && outcome.output == BackgroundOutput(taskId, output)
    case SwitchModel(provider) => outcome == ModelSwitch(provider)
    case Compact => outcome == CompactNeeded
    case _ => false
  }

  /** Every entry answers its event, turns are numbered from one, and the loop is never left in the middle of a turn. */
  ghost predicate WellAnswered(loop: Loop) {
    && loop.turnCount == Inputs(loop.turnHistory)
    && !loop.state.Thinking? && !loop.state.Acting?
    && forall i :: 0 <= i < |loop.turnHistory| ==> Answers(loop.turnHistory, i)
  }

  lemma OneMoreAnswer(history: seq<(LoopEvent, TurnOutcome)>, longer: seq<(LoopEvent, TurnOutcome)>, i: nat)
    requires i < |history| && history <= longer
    ensures Answers(longer, i) <==> Answers(history, i)
  {
    assert longer[..i + 1] == history[..i + 1];
  }

  lemma RecordedIsAnswered(loop: Loop, next: Loop, event: LoopEvent, outcome: TurnOutcome)
    requires WellAnswered(loop) && next.turnHistory == loop.turnHistory + [(event, outcome)]
    requires next.turnCount == loop.turnCount + if event.UserInput? then 1 else 0
    requires !next.state.Thinking? && !next.state.Acting?
    requires
      match event
      case UserInput(_, _) => outcome == Continue(Idle, Turn(next.turnCount))
      case ToolResult(tool, output) => outcome == Continue(Idle, ToolOutput(tool, output))
      case BackgroundDone(taskId, output) => outcome.Continue? && outcome.output == BackgroundOutput(taskId, output)
      case SwitchModel(provider) => outcome == ModelSwitch(provider)
      case Compact => outcome == CompactNeeded
      case _ => false
    ensures WellAnswered(next)
  {
    hide Inputs;
    InputsAfter(loop.turnHistory, (event, outcome));
    var n := |loop.turnHistory|;
    assert next.turnHistory[..n + 1] == next.turnHistory;
    forall i | 0 <= i < |next.turnHistory| ensures Answers(next.turnHistory, i) {
      if i < n { OneMoreAnswer(loop.turnHistory, next.turnHistory, i); }
    }
  }

  lemma HandledIsAnswered(loop: Loop, event: LoopEvent)
    requires WellAnswered(loop)
    ensures WellAnswered(Handled(loop, event).0)
  {
    hide WellAnswered;
    var (next, outcome) := Handled(loop, event);
    if next.turnHistory == loop.turnHistory {
      SameAnswers(loop, next);
    } else {
      NotInATurn(loop);
      RecordedIsAnswered(loop, next, event, outcome);
    }
  }

  lemma NotInATurn(loop: Loop)
    requires WellAnswered(loop)
    ensures !loop.state.Thinking? && !loop.state.Acting?
  {
  }

  lemma SameAnswers(loop: Loop, next: Loop)
    requires WellAnswered(loop) && next.turnHistory == loop.turnHistory && next.turnCount == loop.turnCount
    requires next.state == loop.state || (!next.state.Thinking? && !next.state.Acting?)
    ensures WellAnswered(next)
  {
  }

  lemma PoppedIsAnswered(loop: Loop, config: Config)
    requires WellAnswered(loop) && loop.queue != []
    ensures WellAnswered(Popped(loop, config).0)
  {
    hide WellAnswered, Handled;
    var rest := loop.(queue := loop.queue[1..]);
    SameAnswers(loop, rest);
    HandledIsAnswered(rest, loop.queue[0]);
    if Preempted(rest, config) { SameAnswers(loop, Popped(loop, config).0); }
  }

  lemma {:induction false} DrainedIsAnswered(loop: Loop, n: nat, config: Config)
    requires WellAnswered(loop)
    ensures WellAnswered(Drained(loop, n, config).0)
    decreases n
  {
    hide WellAnswered, Popped;
    if n == 0 || loop.queue == [] {
    } else {
      PoppedIsAnswered(loop, config);
      DrainedIsAnswered(Popped(loop, config).0, n - 1, config);
      var next := Popped(loop, config).0;
      SameAnswers(next, next.(state := Stopped));
    }
  }

  /** Over any run of a new loop every event in the history got its own answer, and the turns are numbered in order. */
  lemma {:induction false} HistoryIsAnswered(provider: string, ops: seq<Op>, n: nat, config: Config)
    requires n <= |ops|
    ensures WellAnswered(Run(NewLoop(provider), ops, n, config))
  {
    hide Drained;
    if n == 0 {
    } else {
      HistoryIsAnswered(provider, ops, n - 1, config);
      hide WellAnswered;
      var before := Run(NewLoop(provider), ops, n - 1, config);
      match ops[n - 1] {
        case Push(event) => SameAnswers(before, Pushed(before, event, config));
        case Drain(max) => DrainedIsAnswered(before, Min(max, |before.queue|), config);
      }
    }
  }
}
