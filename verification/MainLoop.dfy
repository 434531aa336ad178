/**
 The event loop (omokoda-core/src/main_loop.rs): a bounded queue drained through a state machine that thinks,
 compacts, switches models, pauses and stops. Token usage, emotion and budget are not modelled; advancing a
 turn adds one to the turn count (omokoda-core/src/query.rs).
 */
module MainLoop {
  import opened Arithmetic
  import opened Collections
  import opened Wrappers

  datatype LoopEvent =
    | UserInput(prompt: string, isPrivate: bool)
    | ToolResult(tool: string, output: string)
    | BackgroundDone(taskId: string, output: string)
    | SwitchModel(provider: string)
    | Compact
    | Pause
    | Resume
    | Shutdown

  datatype LoopState = Idle | Thinking | Acting(tool: string) | Compacting | SwitchingModel | Paused | Stopped {
    predicate CanAcceptInput() { Idle? || Paused? }
  }

  datatype Output =
    | NoOutput
    | Busy
    | Turn(n: nat)
    | ToolOutput(tool: string, text: string)
    | BackgroundOutput(taskId: string, text: string)

  datatype TurnOutcome =
    | Continue(newState: LoopState, output: Output)
    | ModelSwitch(toProvider: string)
    | CompactNeeded
    | LoopStopped

  datatype Config = Config(
    queueCapacity: nat,
    autoCompactThreshold: nat,
    modelSwitchAfterTurns: Option<nat>,
    fallbackProvider: Option<string>)

  /** Everything a loop is made of. */
  datatype Loop = Loop(
    state: LoopState,
    queue: seq<LoopEvent>,
    turnCount: nat,
    activeProvider: string,
    turnHistory: seq<(LoopEvent, TurnOutcome)>)

  /** Divisibility as the source has it: only zero is a multiple of zero. */
  predicate IsMultipleOf(n: nat, d: nat) {
    if d == 0 then n == 0 else n % d == 0
  }

  predicate CompactionDue(loop: Loop, config: Config) {
    loop.turnCount > 0 && IsMultipleOf(loop.turnCount, config.autoCompactThreshold) && !loop.state.Compacting?
  }

  predicate SwitchArmed(loop: Loop, config: Config) {
    && config.modelSwitchAfterTurns.Some? && loop.turnCount > 0
    && IsMultipleOf(loop.turnCount, config.modelSwitchAfterTurns.value)
    && config.fallbackProvider.Some? && config.fallbackProvider.value != loop.activeProvider
  }

  // ---- One event ----

  function Recorded(loop: Loop, event: LoopEvent, outcome: TurnOutcome): (Loop, TurnOutcome) {
    (loop.(turnHistory := loop.turnHistory + [(event, outcome)]), outcome)
  }

  /** What handling an event does once neither stopping, compaction nor a model switch has pre-empted it. */
  function Handled(loop: Loop, event: LoopEvent): (Loop, TurnOutcome) {
    match event
    case UserInput(_, _) =>
      if !loop.state.CanAcceptInput() then (loop.(queue := [event] + loop.queue), Continue(loop.state, Busy))
      else Recorded(loop.(state := Idle, turnCount := loop.turnCount + 1), event,
          Continue(Idle, Turn(loop.turnCount + 1)))
    case ToolResult(tool, output) => Recorded(loop.(state := Idle), event, Continue(Idle, ToolOutput(tool, output)))
    case BackgroundDone(id, output) => Recorded(loop, event, Continue(loop.state, BackgroundOutput(id, output)))
    case SwitchModel(provider) =>
        Recorded(loop.(state := Idle, activeProvider := provider), event, ModelSwitch(provider))
    case Compact => Recorded(loop.(state := Idle), event, CompactNeeded)
    case Pause => (loop.(state := Paused), Continue(Paused, NoOutput))
    case Resume =>
      var next := if loop.state.Paused? then Idle else loop.state;
      (loop.(state := next), Continue(next, NoOutput))
    case Shutdown => (loop.(state := Stopped), LoopStopped)
  }

  function Processed(loop: Loop, event: LoopEvent, config: Config): (Loop, TurnOutcome) {
    if loop.state.Stopped? then (loop, LoopStopped)
    else if CompactionDue(loop, config) then (loop.(state := Compacting), CompactNeeded)
    else if SwitchArmed(loop, config) then
      (loop.(state := SwitchingModel, activeProvider := config.fallbackProvider.value),
          ModelSwitch(config.fallbackProvider.value))
    else Handled(loop, event)
  }

  /** The head of the queue taken off and processed. */
  function Popped(loop: Loop, config: Config): (Loop, TurnOutcome)
    requires loop.queue != []
  {
    Processed(loop.(queue := loop.queue[1..]), loop.queue[0], config)
  }

  function Drained(loop: Loop, n: nat, config: Config): (Loop, seq<TurnOutcome>)
    decreases n
  {
    if n == 0 || loop.queue == [] then (loop, [])
    else
      var (next, outcome) := Popped(loop, config);
      if outcome.LoopStopped? then (next.(state := Stopped), [outcome])
      else
        var (last, outcomes) := Drained(next, n - 1, config);
        (last, [outcome] + outcomes)
  }

  predicate Refused(loop: Loop, config: Config) {
    loop.state.Stopped? || |loop.queue| >= config.queueCapacity
  }

  function Pushed(loop: Loop, event: LoopEvent, config: Config): Loop {
    if Refused(loop, config) then loop else loop.(queue := loop.queue + [event])
  }

  class MainLoop {
    const config: Config
    var state: LoopState
    var queue: seq<LoopEvent>
    var turnCount: nat
    var activeProvider: string
    var turnHistory: seq<(LoopEvent, TurnOutcome)>

    constructor (c: Config, initialProvider: string)
      ensures config == c && Now() == Loop(Idle, [], 0, initialProvider, [])
    {
      config, state, queue, turnCount, activeProvider, turnHistory := c, Idle, [], 0, initialProvider, [];
    }

    function Now(): Loop
      reads this
    {
      Loop(state, queue, turnCount, activeProvider, turnHistory)
    }

    method Push(event: LoopEvent) returns (accepted: bool)
      modifies this
      ensures accepted <==> !Refused(old(Now()), config)
      ensures Now() == Pushed(old(Now()), event, config)
    {
      if state.Stopped? {
        return false;
      }
      if |queue| >= config.queueCapacity {
        return false;
      }
      queue := queue + [event];
      accepted := true;
    }

    method Drain(max: nat) returns (outcomes: seq<TurnOutcome>)
      modifies this
      ensures (Now(), outcomes) == Drained(old(Now()), Min(max, |old(queue)|), config)
    {
      hide Popped, Processed, Drained;
      outcomes := [];
      var n := Min(max, |queue|);
      ghost var (last, rest) := Drained(Now(), n, config);
      assert outcomes + rest == rest;
      for i := 0 to n
        invariant Drained(Now(), n - i, config) == (last, rest)
        invariant Drained(old(Now()), n, config) == (last, outcomes + rest)
      {
        DrainedIs(Now(), n - i, config);
        if queue != [] {
          var event := queue[0];
          queue := queue[1..];
          var outcome := Process(event);
          if outcome.LoopStopped? {
            state := Stopped;
            return outcomes + [outcome];
          }
          assert outcomes + rest == (outcomes + [outcome]) + rest[1..];
          outcomes, rest := outcomes + [outcome], rest[1..];
        } else {
          DrainedIs(Now(), n - i - 1, config);
        }
      }
      DrainedIs(Now(), 0, config);
      assert outcomes + rest == outcomes;
    }

    method Process(event: LoopEvent) returns (outcome: TurnOutcome)
      modifies this
      ensures (Now(), outcome) == Processed(old(Now()), event, config)
    {
      if state.Stopped? {
        return LoopStopped;
      }
      if turnCount > 0 && IsMultipleOf(turnCount, config.autoCompactThreshold) && !state.Compacting? {
        state := Compacting;
        return CompactNeeded;
      }
      if && config.modelSwitchAfterTurns.Some? && turnCount > 0
         && IsMultipleOf(turnCount, config.modelSwitchAfterTurns.value)
      {
        if config.fallbackProvider.Some? && config.fallbackProvider.value != activeProvider {
          activeProvider := config.fallbackProvider.value;
          state := SwitchingModel;
          return ModelSwitch(activeProvider);
        }
      }
      match event {
        case UserInput(_, _) =>
          if !state.CanAcceptInput() {
            queue := [event] + queue;
            return Continue(state, Busy);
          }
          state := Thinking;
          turnCount := turnCount + 1;
          outcome := Continue(Idle, Turn(turnCount));
          state := Idle;
          turnHistory := turnHistory + [(event, outcome)];
        case ToolResult(tool, output) =>
          outcome := Continue(Idle, ToolOutput(tool, output));
          state := Idle;
          turnHistory := turnHistory + [(event, outcome)];
        case BackgroundDone(id, output) =>
          outcome := Continue(state, BackgroundOutput(id, output));
          turnHistory := turnHistory + [(event, outcome)];
        case SwitchModel(provider) =>
          activeProvider := provider;
          state := Idle;
          outcome := ModelSwitch(provider);
          turnHistory := turnHistory + [(event, outcome)];
        case Compact =>
          state := Compacting;
          outcome := CompactNeeded;
          state := Idle;
          turnHistory := turnHistory + [(event, outcome)];
        case Pause =>
          state := Paused;
          outcome := Continue(Paused, NoOutput);
        case Resume =>
          if state.Paused? {
            state := Idle;
          }
          outcome := Continue(state, NoOutput);
        case Shutdown =>
          state := Stopped;
          outcome := LoopStopped;
      }
    }
  }

  /** One step of a drain. */
  lemma DrainedIs(loop: Loop, n: nat, config: Config)
    ensures n == 0 || loop.queue == [] ==> Drained(loop, n, config) == (loop, [])
    ensures n > 0 && loop.queue != [] ==>
      var (next, outcome) := Processed(loop.(queue := loop.queue[1..]), loop.queue[0], config);
      var (last, outcomes) := Drained(next, n - 1, config);
      Drained(loop, n, config) ==
        if outcome.LoopStopped? then (next.(state := Stopped), [outcome]) else (last, [outcome] + outcomes)
  {
    hide Processed;
  }

  // ---- Runs of push and drain ----

  datatype Op = Push(event: LoopEvent) | Drain(max: nat)

  function After(loop: Loop, op: Op, config: Config): Loop {
    match op
    case Push(event) => Pushed(loop, event, config)
    case Drain(max) => Drained(loop, Min(max, |loop.queue|), config).0
  }

  function Run(start: Loop, ops: seq<Op>, n: nat, config: Config): Loop
    requires n <= |ops|
  {
    if n == 0 then start else After(Run(start, ops, n - 1, config), ops[n - 1], config)
  }

  /** The events that pushes accepted, in order. */
  function Accepted(start: Loop, ops: seq<Op>, n: nat, config: Config): seq<LoopEvent>
    requires n <= |ops|
  {
    if n == 0 then []
    else
      Accepted(start, ops, n - 1, config)
      + if ops[n - 1].Push? && !Refused(Run(start, ops, n - 1, config), config) then [ops[n - 1].event] else []
  }

  /** Stopping, due compaction and an armed model switch come before the event is looked at. */
  predicate Preempted(loop: Loop, config: Config) {
    loop.state.Stopped? || CompactionDue(loop, config) || SwitchArmed(loop, config)
  }

  /** Whether popping the head puts it straight back. */
  predicate Requeues(loop: Loop, config: Config)
    requires loop.queue != []
  {
    loop.queue[0].UserInput? && !loop.state.CanAcceptInput() && !Preempted(loop, config)
  }

  /** The pop comes to the same whatever the event at the head. */
  ghost predicate Unread(loop: Loop, config: Config)
    requires loop.queue != []
  {
    forall event: LoopEvent :: Popped(loop.(queue := [event] + loop.queue[1..]), config) == Popped(loop, config)
  }

  /** A popped event is discarded unread exactly when the loop is stopped, compaction is due or a switch is armed. */
  lemma UnreadIff(loop: Loop, config: Config)
    requires loop.queue != []
    ensures Unread(loop, config) <==> Preempted(loop, config)
  {
    var rest := loop.queue[1..];
    assert forall event :: ([event] + rest)[1..] == rest;
    if !Preempted(loop, config) {
      var stopping, pausing := loop.(queue := [Shutdown] + rest), loop.(queue := [Pause] + rest);
      assert Popped(stopping, config).1 == LoopStopped && Popped(pausing, config).1 != LoopStopped;
    }
  }

  /** An event that left the queue for good: handled, or discarded unread. */
  datatype Taken = Taken(event: LoopEvent, handled: bool)

  function TakenBy(loop: Loop, n: nat, config: Config): seq<Taken>
    decreases n
  {
    if n == 0 || loop.queue == [] then []
    else
      var (next, outcome) := Popped(loop, config);
      (if Requeues(loop, config) then [] else [Taken(loop.queue[0], !Preempted(loop, config))])
      + if outcome.LoopStopped? then [] else TakenBy(next, n - 1, config)
  }

  /** Every event taken off the queue during a run, in order. */
  function TakenIn(start: Loop, ops: seq<Op>, n: nat, config: Config): seq<Taken>
    requires n <= |ops|
  {
    if n == 0 then []
    else
      var before := Run(start, ops, n - 1, config);
      TakenIn(start, ops, n - 1, config)
      + if ops[n - 1].Drain? then TakenBy(before, Min(ops[n - 1].max, |before.queue|), config) else []
  }

  function EventsOf(taken: seq<Taken>): seq<LoopEvent> {
    seq(|taken|, i requires 0 <= i < |taken| => taken[i].event)
  }

  lemma PopKeepsOrder(loop: Loop, config: Config)
    requires loop.queue != []
    ensures Popped(loop, config).0.queue == if Requeues(loop, config) then loop.queue else loop.queue[1..]
  {
  }

  lemma {:induction false} DrainKeepsOrder(loop: Loop, n: nat, config: Config)
    ensures loop.queue == EventsOf(TakenBy(loop, n, config)) + Drained(loop, n, config).0.queue
    decreases n
  {
    if n == 0 || loop.queue == [] {
    } else {
      hide Popped, Requeues, Preempted, EventsOf;
      var (next, outcome) := Popped(loop, config);
      DrainKeepsOrder(next, n - 1, config);
      var first := if Requeues(loop, config) then [] else [Taken(loop.queue[0], !Preempted(loop, config))];
      var more := if outcome.LoopStopped? then [] else TakenBy(next, n - 1, config);
      assert TakenBy(loop, n, config) == first + more;
      EventsConcat(first, more);
      PopTakes(loop, config);
      EventsOfNone();
      Reassociate(EventsOf(first), EventsOf(more), Drained(loop, n, config).0.queue);
    }
  }

  lemma PopTakes(loop: Loop, config: Config)
    requires loop.queue != []
    ensures
      var first := if Requeues(loop, config) then [] else [Taken(loop.queue[0], !Preempted(loop, config))];
      loop.queue == EventsOf(first) + Popped(loop, config).0.queue
  {
    hide Popped, Requeues, Preempted;
    PopKeepsOrder(loop, config);
  }

  lemma EventsOfNone()
    ensures EventsOf([]) == []
  {
  }

  lemma EventsConcat(a: seq<Taken>, b: seq<Taken>)
    ensures EventsOf(a + b) == EventsOf(a) + EventsOf(b)
  {
  }

  lemma {:induction false} PushKeepsCapacity(start: Loop, ops: seq<Op>, n: nat, config: Config)
    requires n <= |ops| && |start.queue| <= config.queueCapacity
    ensures |Run(start, ops, n, config).queue| <= config.queueCapacity
  {
    hide Drained;
    if n == 0 {
    } else {
      PushKeepsCapacity(start, ops, n - 1, config);
      var before := Run(start, ops, n - 1, config);
      if ops[n - 1].Drain? { DrainKeepsOrder(before, Min(ops[n - 1].max, |before.queue|), config); }
    }
  }

  /**
   Over any run, the events accepted are those handled and those discarded, interleaved as they were taken, and
   then those still queued, in order, although busy input is put back at the head.
   */
  lemma {:induction false} AcceptedIsTakenThenQueued(start: Loop, ops: seq<Op>, n: nat, config: Config)
    requires n <= |ops| && start.queue == []
    ensures Accepted(start, ops, n, config)
        == EventsOf(TakenIn(start, ops, n, config)) + Run(start, ops, n, config).queue
  {
    hide Drained, TakenBy, CompactionDue, SwitchArmed;
    if n == 0 {
    } else {
      AcceptedIsTakenThenQueued(start, ops, n - 1, config);
      var before := Run(start, ops, n - 1, config);
      if ops[n - 1].Drain? { DrainKeepsOrder(before, Min(ops[n - 1].max, |before.queue|), config); }
    }
  }

  // ---- The history ----

  /** Handling any other event leaves no entry. */
  predicate Recordable(event: LoopEvent) {
    !event.Pause? && !event.Resume? && !event.Shutdown?
  }

  function RecordedFrom(taken: Taken): seq<LoopEvent> {
    if taken.handled && Recordable(taken.event) then [taken.event] else []
  }

  /** The recordable events among those handled. */
  function RecordedOf(taken: seq<Taken>): seq<LoopEvent> {
    if taken == [] then [] else RecordedFrom(taken[0]) + RecordedOf(taken[1..])
  }

  function EventsIn(history: seq<(LoopEvent, TurnOutcome)>): seq<LoopEvent> {
    seq(|history|, i requires 0 <= i < |history| => history[i].0)
  }

  lemma {:induction false} RecordedConcat(a: seq<Taken>, b: seq<Taken>)
    ensures RecordedOf(a + b) == RecordedOf(a) + RecordedOf(b)
  {
    hide RecordedFrom;
    if a == [] {
      assert a + b == b;
    } else {
      RecordedConcat(a[1..], b);
      assert (a + b)[0] == a[0] && (a + b)[1..] == a[1..] + b;
      Reassociate(RecordedFrom(a[0]), RecordedOf(a[1..]), RecordedOf(b));
    }
  }

  lemma PopRecords(loop: Loop, config: Config)
    requires loop.queue != []
    ensures EventsIn(Popped(loop, config).0.turnHistory)
         == EventsIn(loop.turnHistory)
            + RecordedFrom(Taken(loop.queue[0], !Preempted(loop, config) && !Requeues(loop, config)))
  {
  }

  lemma {:induction false} DrainRecords(loop: Loop, n: nat, config: Config)
    ensures EventsIn(Drained(loop, n, config).0.turnHistory)
         == EventsIn(loop.turnHistory) + RecordedOf(TakenBy(loop, n, config))
    decreases n
  {
    if n == 0 || loop.queue == [] {
    } else {
      hide Popped, Requeues, Preempted, Recordable, EventsIn;
      PopRecords(loop, config);
      var (next, outcome) := Popped(loop, config);
      DrainRecords(next, n - 1, config);
      var first := if Requeues(loop, config) then [] else [Taken(loop.queue[0], !Preempted(loop, config))];
      var more := if outcome.LoopStopped? then [] else TakenBy(next, n - 1, config);
      RecordedConcat(first, more);
      assert TakenBy(loop, n, config) == first + more;
      Reassociate(EventsIn(loop.turnHistory), RecordedOf(first), RecordedOf(more));
    }
  }

  /**
   Over any run, the history grows by exactly the recordable events handled, in order: nothing discarded,
   nothing put back.
   */
  lemma {:induction false} HistoryIsWhatWasHandled(start: Loop, ops: seq<Op>, n: nat, config: Config)
    requires n <= |ops|
    ensures EventsIn(Run(start, ops, n, config).turnHistory)
         == EventsIn(start.turnHistory) + RecordedOf(TakenIn(start, ops, n, config))
  {
    hide Drained, TakenBy, EventsIn;
    if n == 0 {
    } else {
      hide RecordedOf;
      HistoryIsWhatWasHandled(start, ops, n - 1, config);
      var before := Run(start, ops, n - 1, config);
      if ops[n - 1].Drain? {
        var max := Min(ops[n - 1].max, |before.queue|);
        var earlier, taken := TakenIn(start, ops, n - 1, config), TakenBy(before, max, config);
        DrainRecords(before, max, config);
        RecordedConcat(earlier, taken);
        Reassociate(EventsIn(start.turnHistory), RecordedOf(earlier), RecordedOf(taken));
      } else {
        assert TakenIn(start, ops, n, config) == TakenIn(start, ops, n - 1, config);
      }
    }
  }
}
