/**
 Context compaction (omokoda-core/src/compact.rs): the session and micro engines, which drain a session's
 messages in place, and the auto-compactor that decides when to run them. Summary text is not modelled,
 and the clock is a parameter.
 */
module Compaction {
  import opened Arithmetic

  datatype Role = System | User | Assistant | Tool

  /** A message pushed by the conversation, or the summary a compaction puts in front. */
  datatype Message = Pushed(role: Role, text: string) | Summary(compactedCount: nat, at: nat)

  datatype CompactionResult = NotNeeded | Compacted(compactedCount: nat, compactedAt: nat)

  datatype Trigger = MessageCount(count: nat) | EnergyBelow(threshold: real) | TimeSecs(secs: nat)

  datatype Strategy = Micro | Session | Grouped

  function SaturatingSub(x: nat, y: nat): nat { if x >= y then x - y else 0 }

  class Session {
    var publicMessages: seq<Message>

    constructor ()
      ensures publicMessages == []
    {
      publicMessages := [];
    }

    method Push(message: Message)
      modifies this
      ensures publicMessages == old(publicMessages) + [message]
    {
      publicMessages := publicMessages + [message];
    }
  }

  // ---- What the engines do to a list of messages ----

  /** How many of the oldest messages a session compaction removes. */
  function SessionCut(n: nat, threshold: nat, keepRecent: nat): nat {
    if n > threshold then SaturatingSub(n, keepRecent) else 0
  }

  function MicroCut(n: nat, batchSize: nat, keepMinimum: nat): nat {
    Min(batchSize, SaturatingSub(n, keepMinimum))
  }

  function Cut(messages: seq<Message>, cut: nat, summarize: bool, now: nat): seq<Message>
    requires cut <= |messages|
  {
    if cut == 0 then messages
    else (if summarize then [Summary(cut, now)] else []) + messages[cut..]
  }

  function Outcome(cut: nat, now: nat): CompactionResult {
    if cut == 0 then NotNeeded else Compacted(cut, now)
  }

  class CompactionEngine {
    const threshold: nat
    const keepRecent: nat

    constructor (t: nat := 50, k: nat := 10)
      ensures threshold == t && keepRecent == k
    {
      threshold, keepRecent := t, k;
    }

    /** Replaces all but the newest messages with one summary. */
    method Compact(session: Session, now: nat) returns (r: CompactionResult)
      modifies session
      ensures
        var cut := SessionCut(|old(session.publicMessages)|, threshold, keepRecent);
        r == Outcome(cut, now) && session.publicMessages == Cut(old(session.publicMessages), cut, true, now)
    {
      if |session.publicMessages| <= threshold {
        return NotNeeded;
      }
      var total := |session.publicMessages|;
      var toCompactCount := SaturatingSub(total, keepRecent);
      if toCompactCount == 0 {
        return NotNeeded;
      }
      var oldMessages := session.publicMessages[..toCompactCount];
      session.publicMessages := session.publicMessages[toCompactCount..];
      session.publicMessages := [Summary(|oldMessages|, now)] + session.publicMessages;
      r := Compacted(|oldMessages|, now);
    }
  }

  class MicroCompactEngine {
    const batchSize: nat
    const keepMinimum: nat

    constructor (b: nat, k: nat)
      ensures batchSize == b && keepMinimum == k
    {
      batchSize, keepMinimum := b, k;
    }

    /** Drops a batch of the oldest messages. */
    method Compact(session: Session, now: nat) returns (r: CompactionResult)
      modifies session
      ensures
        var cut := MicroCut(|old(session.publicMessages)|, batchSize, keepMinimum);
        r == Outcome(cut, now) && session.publicMessages == Cut(old(session.publicMessages), cut, false, now)
    {
      var len := |session.publicMessages|;
      if len <= keepMinimum {
        return NotNeeded;
      }
      var removable := len - keepMinimum;
      var toRemove := Min(batchSize, removable);
      if toRemove == 0 {
        return NotNeeded;
      }
      session.publicMessages := session.publicMessages[toRemove..];
      r := Compacted(toRemove, now);
    }
  }

  // ---- When to compact ----

  predicate Fires(trigger: Trigger, messages: nat, energyRatio: real, lastCompactAt: nat, now: nat) {
    match trigger
    case MessageCount(n) => messages > n
    case EnergyBelow(threshold) => energyRatio < threshold
    case TimeSecs(secs) => lastCompactAt > 0 && SaturatingSub(now, lastCompactAt) >= secs
  }

  predicate Due(triggers: seq<Trigger>, messages: nat, energyRatio: real, lastCompactAt: nat, now: nat) {
    exists i :: 0 <= i < |triggers| && Fires(triggers[i], messages, energyRatio, lastCompactAt, now)
  }

  class AutoCompactor {
    const triggers: seq<Trigger>
    const strategy: Strategy
    const engine: CompactionEngine
    const microEngine: MicroCompactEngine
    var lastCompactAt: nat

    /** The configuration brings its own last compaction time, which by default is 0. */
    constructor (ts: seq<Trigger>, s: Strategy, lastAt: nat := 0)
      ensures triggers == ts && strategy == s && lastCompactAt == lastAt
      ensures engine.threshold == 50 && engine.keepRecent == 10
      ensures microEngine.batchSize == 10 && microEngine.keepMinimum == 5
    {
      triggers, strategy, lastCompactAt := ts, s, lastAt;
      engine := new CompactionEngine();
      microEngine := new MicroCompactEngine(10, 5);
    }

    method ShouldCompact(session: Session, energyRatio: real, now: nat) returns (due: bool)
      ensures due == Due(triggers, |session.publicMessages|, energyRatio, lastCompactAt, now)
    {
      for i := 0 to |triggers|
        invariant forall j ::
          0 <= j < i ==> !Fires(triggers[j], |session.publicMessages|, energyRatio, lastCompactAt, now)
      {
        if Fires(triggers[i], |session.publicMessages|, energyRatio, lastCompactAt, now) {
          return true;
        }
      }
      due := false;
    }

    method CompactWithStrategy(session: Session, now: nat) returns (r: CompactionResult)
      modifies session
      ensures
        var cut := StrategyCut(|old(session.publicMessages)|, strategy, Limits());
        r == Outcome(cut, now) && session.publicMessages == Cut(old(session.publicMessages), cut, !strategy.Micro?, now)
    {
      match strategy {
        case Micro => r := microEngine.Compact(session, now);
        case Session | Grouped => r := engine.Compact(session, now);
      }
    }

    function Limits(): EngineLimits {
      EngineLimits(engine.threshold, engine.keepRecent, microEngine.batchSize, microEngine.keepMinimum)
    }

    /** Compacts when a trigger fires. The time of the attempt is recorded even if nothing was removed. */
    method CompactIfNeeded(session: Session, energyRatio: real, now: nat) returns (r: CompactionResult)
      modifies this`lastCompactAt, session
      ensures
        var due := Due(triggers, |old(session.publicMessages)|, energyRatio, old(lastCompactAt), now);
        var cut := if due then StrategyCut(|old(session.publicMessages)|, strategy, Limits()) else 0;
        && r == Outcome(cut, now)
        && session.publicMessages == Cut(old(session.publicMessages), cut, !strategy.Micro?, now)
        && lastCompactAt == if due then now else old(lastCompactAt)
    {
      hide Due, Fires;
      var due := ShouldCompact(session, energyRatio, now);
      if due {
        r := CompactWithStrategy(session, now);
        lastCompactAt := now;
      } else {
        r := NotNeeded;
      }
    }
  }

  datatype EngineLimits = EngineLimits(threshold: nat, keepRecent: nat, batchSize: nat, keepMinimum: nat)

  function StrategyCut(n: nat, strategy: Strategy, limits: EngineLimits): (cut: nat)
    ensures cut <= n
  {
    if strategy.Micro? then MicroCut(n, limits.batchSize, limits.keepMinimum)
    else SessionCut(n, limits.threshold, limits.keepRecent)
  }

  // ---- Runs ----

  datatype Op =
    | Push(role: Role, text: string)
    | Compact(strategy: Strategy, now: nat)
    | Poll(energyRatio: real, now: nat)

  datatype Config = Config(limits: EngineLimits, triggers: seq<Trigger>, strategy: Strategy, lastCompactAt: nat)

  datatype State = State(messages: seq<Message>, lastCompactAt: nat)

  /** How many messages an operation removes. */
  function Removed(state: State, op: Op, config: Config): (cut: nat)
    ensures cut <= |state.messages|
  {
    match op
    case Push(_, _) => 0
    case Compact(strategy, _) => StrategyCut(|state.messages|, strategy, config.limits)
    case Poll(energyRatio, now) =>
      if Due(config.triggers, |state.messages|, energyRatio, state.lastCompactAt, now)
      then StrategyCut(|state.messages|, config.strategy, config.limits)
      else 0
  }

  /** Whether an operation, if it removes anything, leaves a summary. */
  predicate Summarizes(op: Op, config: Config) {
    match op
    case Push(_, _) => false
    case Compact(strategy, _) => !strategy.Micro?
    case Poll(_, _) => !config.strategy.Micro?
  }

  function After(state: State, op: Op, config: Config): State {
    match op
    case Push(role, text) => state.(messages := state.messages + [Pushed(role, text)])
    case Compact(_, now) =>
        state.(messages := Cut(state.messages, Removed(state, op, config), Summarizes(op, config), now))
    case Poll(energyRatio, now) =>
      var due := Due(config.triggers, |state.messages|, energyRatio, state.lastCompactAt, now);
      State(Cut(state.messages, Removed(state, op, config), Summarizes(op, config), now),
            if due then now else state.lastCompactAt)
  }

  function Run(ops: seq<Op>, n: nat, config: Config): State
    requires n <= |ops|
  {
    if n == 0 then State([], config.lastCompactAt) else After(Run(ops, n - 1, config), ops[n - 1], config)
  }

  /** Everything ever pushed. */
  function History(ops: seq<Op>, n: nat): seq<Message>
    requires n <= |ops|
  {
    if n == 0 then []
    else History(ops, n - 1) + if ops[n - 1].Push? then [Pushed(ops[n - 1].role, ops[n - 1].text)] else []
  }

  /** The sum of the reported compacted counts. */
  function TotalCompacted(ops: seq<Op>, n: nat, config: Config): nat
    requires n <= |ops|
  {
    if n == 0 then 0
    else TotalCompacted(ops, n - 1, config) + Removed(Run(ops, n - 1, config), ops[n - 1], config)
  }

  /** The number of summaries ever written. */
  function SummariesWritten(ops: seq<Op>, n: nat, config: Config): nat
    requires n <= |ops|
  {
    if n == 0 then 0
    else
      SummariesWritten(ops, n - 1, config)
      + if Summarizes(ops[n - 1], config) && Removed(Run(ops, n - 1, config), ops[n - 1], config) > 0 then 1 else 0
  }

  // ---- What every run keeps ----

  function Summaries(messages: seq<Message>): nat {
    if |messages| > 0 && messages[0].Summary? then 1 else 0
  }

  /** The conversation's own messages, if a summary can only be in front. */
  function Reals(messages: seq<Message>): seq<Message> {
    messages[Summaries(messages)..]
  }

  predicate OneSummaryInFront(messages: seq<Message>) {
    forall i :: 0 < i < |messages| ==> messages[i].Pushed?
  }

  predicate SuffixOf(reals: seq<Message>, history: seq<Message>) {
    |reals| <= |history| && reals == history[|history| - |reals|..]
  }

  predicate Accounted(messages: seq<Message>, history: seq<Message>, total: nat, written: nat) {
    total + |Reals(messages)| + Summaries(messages) == |history| + written
  }

  predicate KeepsEnough(messages: seq<Message>, history: seq<Message>, limits: EngineLimits) {
    |Reals(messages)| >= Min(|history|, Min(limits.keepRecent, limits.keepMinimum))
  }

  lemma CutKeeps(messages: seq<Message>, cut: nat, summarize: bool, now: nat, history: seq<Message>)
    requires cut <= |messages| && OneSummaryInFront(messages) && SuffixOf(Reals(messages), history)
    ensures
      var after := Cut(messages, cut, summarize, now);
      && OneSummaryInFront(after) && SuffixOf(Reals(after), history)
      && Summaries(messages) + |Reals(messages)| == |messages|
      && (cut > 0 ==>
           |Reals(after)| == |messages| - cut && Summaries(after) == if summarize then 1 else 0)
  {
    if cut > 0 {
      var after := Cut(messages, cut, summarize, now);
      var kept := messages[cut..];
      assert Reals(after) == kept;
      assert kept == Reals(messages)[cut - Summaries(messages)..];
      hide Reals, SuffixOf;
      SuffixOfSuffix(Reals(messages), history, cut - Summaries(messages));
    }
  }

  lemma SuffixOfSuffix(reals: seq<Message>, history: seq<Message>, k: nat)
    requires SuffixOf(reals, history) && k <= |reals|
    ensures SuffixOf(reals[k..], history)
  {
  }

  lemma PushKeeps(messages: seq<Message>, message: Message, history: seq<Message>)
    requires OneSummaryInFront(messages) && SuffixOf(Reals(messages), history) && message.Pushed?
    ensures OneSummaryInFront(messages + [message]) && SuffixOf(Reals(messages + [message]), history + [message])
    ensures Summaries(messages + [message]) == Summaries(messages)
    ensures |Reals(messages + [message])| == |Reals(messages)| + 1
  {
    assert Reals(messages + [message]) == Reals(messages) + [message];
  }

  /** A removal leaves at least what the engine promises to keep. */
  lemma CutLeaves(n: nat, strategy: Strategy, limits: EngineLimits)
    ensures
      var cut := StrategyCut(n, strategy, limits);
      cut > 0 ==> n - cut >= Min(limits.keepRecent, limits.keepMinimum)
  {
  }

  /**
   After any run of pushes, session and micro compactions and polls, the list is at most one summary followed by
   a suffix of everything pushed; at least the smaller of the keep limits (or the whole history) is still there;
   and the reported counts account for every message and every summary removed.
   */
  lemma {:induction false} RunKeepsASuffix(ops: seq<Op>, n: nat, config: Config)
    requires n <= |ops|
    ensures
      var messages, history := Run(ops, n, config).messages, History(ops, n);
      && OneSummaryInFront(messages) && SuffixOf(Reals(messages), history)
      && KeepsEnough(messages, history, config.limits)
      && Accounted(messages, history, TotalCompacted(ops, n, config), SummariesWritten(ops, n, config))
  {
    if n == 0 {
    } else {
      RunKeepsASuffix(ops, n - 1, config);
      StepKeepsASuffix(Run(ops, n - 1, config), ops[n - 1], config, History(ops, n - 1),
                       TotalCompacted(ops, n - 1, config), SummariesWritten(ops, n - 1, config));
    }
  }

  lemma StepKeepsASuffix(state: State, op: Op, config: Config, history: seq<Message>, total: nat, written: nat)
    requires OneSummaryInFront(state.messages) && SuffixOf(Reals(state.messages), history)
    requires KeepsEnough(state.messages, history, config.limits) && Accounted(state.messages, history, total, written)
    ensures
      var messages, cut := After(state, op, config).messages, Removed(state, op, config);
      var history' := history + if op.Push? then [Pushed(op.role, op.text)] else [];
      && OneSummaryInFront(messages) && SuffixOf(Reals(messages), history')
      && KeepsEnough(messages, history', config.limits)
      && Accounted(messages, history', total + cut, written + if Summarizes(op, config) && cut > 0 then 1 else 0)
  {
    hide OneSummaryInFront, SuffixOf, Reals, Summaries, Due, Fires, StrategyCut;
    if op.Push? {
      PushKeeps(state.messages, Pushed(op.role, op.text), history);
    } else {
      assert history + [] == history;
      CutKeeps(state.messages, Removed(state, op, config), Summarizes(op, config), op.now, history);
      CutLeaves(|state.messages|, if op.Compact? then op.strategy else config.strategy, config.limits);
    }
  }

  /**
   A session compaction settles, so that compacting again right after does nothing, exactly when fewer messages are
   kept than the threshold allows; otherwise each further call just replaces the summary by a summary of itself.
   */
  lemma CompactionSettlesIff(messages: seq<Message>, limits: EngineLimits, now: nat, later: nat)
    requires SessionCut(|messages|, limits.threshold, limits.keepRecent) > 0
    ensures
      var after := Cut(messages, SessionCut(|messages|, limits.threshold, limits.keepRecent), true, now);
      var again := SessionCut(|after|, limits.threshold, limits.keepRecent);
      && (again == 0 <==> limits.keepRecent < limits.threshold)
      && (again > 0 ==> Cut(after, again, true, later) == [Summary(1, later)] + after[1..])
  {
  }

  // ---- The triggers ----

  /** While the last compaction time is 0, only a count or energy trigger can fire. */
  lemma FirstCompactionIff(triggers: seq<Trigger>, messages: nat, energyRatio: real, now: nat)
    ensures Due(triggers, messages, energyRatio, 0, now)
       <==> exists i ::
              0 <= i < |triggers| && !triggers[i].TimeSecs? && Fires(triggers[i], messages, energyRatio, 0, now)
  {
    if Due(triggers, messages, energyRatio, 0, now) {
      var i :| 0 <= i < |triggers| && Fires(triggers[i], messages, energyRatio, 0, now);
    }
  }

  ghost predicate OtherTriggerFires(triggers: seq<Trigger>, messages: nat, energyRatio: real, lastCompactAt: nat,
                                    now: nat)
  {
    exists i ::
      0 <= i < |triggers| && !triggers[i].TimeSecs? && Fires(triggers[i], messages, energyRatio, lastCompactAt, now)
  }

  /** An energy ratio that no energy trigger minds. */
  function Ample(triggers: seq<Trigger>, n: nat): (energyRatio: real)
    requires n <= |triggers|
    ensures forall i :: 0 <= i < n && triggers[i].EnergyBelow? ==> energyRatio >= triggers[i].threshold
  {
    if n == 0 then 0.0
    else
      var rest := Ample(triggers, n - 1);
      if triggers[n - 1].EnergyBelow? then RealMax(rest, triggers[n - 1].threshold) else rest
  }

  /** Time triggers add nothing to the others exactly when there are none or the last compaction time is 0. */
  lemma TimeTriggersIdleIff(triggers: seq<Trigger>, lastCompactAt: nat)
    ensures (forall messages: nat, energyRatio: real, now: nat ::
               Due(triggers, messages, energyRatio, lastCompactAt, now)
               ==> OtherTriggerFires(triggers, messages, energyRatio, lastCompactAt, now))
       <==> lastCompactAt == 0 || forall i :: 0 <= i < |triggers| ==> !triggers[i].TimeSecs?
  {
    if lastCompactAt > 0 && exists i :: 0 <= i < |triggers| && triggers[i].TimeSecs? {
      var i :| 0 <= i < |triggers| && triggers[i].TimeSecs?;
      var energyRatio, now := Ample(triggers, |triggers|), lastCompactAt + triggers[i].secs;
      assert Fires(triggers[i], 0, energyRatio, lastCompactAt, now);
      assert Due(triggers, 0, energyRatio, lastCompactAt, now);
      assert !OtherTriggerFires(triggers, 0, energyRatio, lastCompactAt, now);
    }
  }

  // ---- Time triggers alone ----

  predicate DueAt(ops: seq<Op>, i: nat, config: Config)
    requires i < |ops|
  {
    var state := Run(ops, i, config);
    ops[i].Poll? && Due(config.triggers, |state.messages|, ops[i].energyRatio, state.lastCompactAt, ops[i].now)
  }

  /** The poll comes less than every trigger's seconds after the configured last compaction. */
  predicate TooEarly(op: Op, config: Config) {
    op.Poll? ==>
      forall j :: 0 <= j < |config.triggers| && config.triggers[j].TimeSecs? ==>
        SaturatingSub(op.now, config.lastCompactAt) < config.triggers[j].secs
  }

  /** Only a due poll moves the last compaction time. */
  lemma {:induction false} TimeStays(ops: seq<Op>, n: nat, config: Config)
    requires n <= |ops| && forall i :: 0 <= i < n ==> !DueAt(ops, i, config)
    ensures Run(ops, n, config).lastCompactAt == config.lastCompactAt
  {
    hide Due;
    if n == 0 {
    } else {
      TimeStays(ops, n - 1, config);
      assert !DueAt(ops, n - 1, config);
    }
  }

  lemma DueUnmovedIff(ops: seq<Op>, i: nat, config: Config)
    requires i < |ops| && forall j :: 0 <= j < |config.triggers| ==> config.triggers[j].TimeSecs?
    requires Run(ops, i, config).lastCompactAt == config.lastCompactAt
    ensures !DueAt(ops, i, config) <==> config.lastCompactAt == 0 || TooEarly(ops[i], config)
  {
    hide Run;
    if ops[i].Poll? && config.lastCompactAt > 0 && !TooEarly(ops[i], config) {
      var j :| 0 <= j < |config.triggers| && SaturatingSub(ops[i].now, config.lastCompactAt) >= config.triggers[j].secs;
      var state := Run(ops, i, config);
      assert Fires(config.triggers[j], |state.messages|, ops[i].energyRatio, state.lastCompactAt, ops[i].now);
    }
  }

  /**
   With time triggers alone, no poll of a run is ever due exactly when the configured last compaction time is 0, or
   every poll comes less than every trigger's seconds after it. Explicit compactions make no difference.
   */
  lemma {:induction false} TimeAloneNeverDueIff(ops: seq<Op>, n: nat, config: Config)
    requires n <= |ops| && forall j :: 0 <= j < |config.triggers| ==> config.triggers[j].TimeSecs?
    ensures (forall i :: 0 <= i < n ==> !DueAt(ops, i, config))
       <==> config.lastCompactAt == 0 || forall i :: 0 <= i < n ==> TooEarly(ops[i], config)
  {
    hide DueAt, TooEarly, Run;
    if n == 0 {
    } else {
      TimeAloneNeverDueIff(ops, n - 1, config);
      if forall i :: 0 <= i < n - 1 ==> !DueAt(ops, i, config) {
        TimeStays(ops, n - 1, config);
        DueUnmovedIff(ops, n - 1, config);
      }
    }
  }

  /** Without explicit compactions either, such a run keeps its whole history. */
  lemma {:induction false} TimeAloneNeverFires(ops: seq<Op>, n: nat, config: Config)
    requires n <= |ops| && forall i :: 0 <= i < n ==> !DueAt(ops, i, config)
    requires forall i :: 0 <= i < n ==> !ops[i].Compact?
    ensures Run(ops, n, config) == State(History(ops, n), config.lastCompactAt)
  {
    hide Due;
    if n == 0 {
    } else {
      TimeAloneNeverFires(ops, n - 1, config);
      assert !DueAt(ops, n - 1, config);
      assert History(ops, n - 1) + [] == History(ops, n - 1);
    }
  }

  /** A polled session with a count trigger stays bounded under the summarizing strategies. */
  lemma PollBoundsTheList(state: State, op: Op, config: Config, i: nat)
    requires op.Poll? && !config.strategy.Micro? && i < |config.triggers| && config.triggers[i].MessageCount?
    ensures |After(state, op, config).messages|
         <= Max(config.triggers[i].count, Max(config.limits.threshold, config.limits.keepRecent + 1))
  {
    if |state.messages| > config.triggers[i].count {
      assert Fires(config.triggers[i], |state.messages|, op.energyRatio, state.lastCompactAt, op.now);
    }
  }
}
