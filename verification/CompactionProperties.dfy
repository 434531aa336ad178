/**
 Compaction told without its own helpers (omokoda-core/src/compact.rs): which triggers of a list matter, what one
 session compaction leaves, and where repeated micro compaction ends.
 */
module CompactionProperties {
  import opened Arithmetic
  import opened Compaction
  import opened Wrappers

  // ---- The tightest trigger of each kind ----

  /** The lowest message count that a trigger of the list names. */
  function LeastCount(triggers: seq<Trigger>): Option<nat> {
    if triggers == [] then None
    else
      var rest := LeastCount(triggers[1..]);
      if !triggers[0].MessageCount? || (rest.Some? && rest.value <= triggers[0].count) then rest
      else Some(triggers[0].count)
  }

  /** The highest energy threshold. */
  function GreatestEnergy(triggers: seq<Trigger>): Option<real> {
    if triggers == [] then None
    else
      var rest := GreatestEnergy(triggers[1..]);
      if !triggers[0].EnergyBelow? || (rest.Some? && rest.value >= triggers[0].threshold) then rest
      else Some(triggers[0].threshold)
  }

  /** The shortest time. */
  function LeastSecs(triggers: seq<Trigger>): Option<nat> {
    if triggers == [] then None
    else
      var rest := LeastSecs(triggers[1..]);
      if !triggers[0].TimeSecs? || (rest.Some? && rest.value <= triggers[0].secs) then rest
      else Some(triggers[0].secs)
  }

  /**
   A list of triggers fires exactly when there are more messages than its lowest count, less energy than its highest
   threshold, or a compaction was recorded at least its shortest time ago: order and repeats do not matter.
   */
  lemma {:induction false} DueByTheTightest(triggers: seq<Trigger>, messages: nat, energyRatio: real,
                                            lastCompactAt: nat, now: nat)
    ensures
      var count, energy, secs := LeastCount(triggers), GreatestEnergy(triggers), LeastSecs(triggers);
      Due(triggers, messages, energyRatio, lastCompactAt, now) <==>
        || (count.Some? && count.value < messages)
        || (energy.Some? && energyRatio < energy.value)
        || (secs.Some? && 0 < lastCompactAt && lastCompactAt + secs.value <= Max(now, lastCompactAt))
  {
    if triggers == [] {
    } else {
      DueByTheTightest(triggers[1..], messages, energyRatio, lastCompactAt, now);
      DueOfRest(triggers, messages, energyRatio, lastCompactAt, now);
    }
  }

  lemma DueOfRest(triggers: seq<Trigger>, messages: nat, energyRatio: real, lastCompactAt: nat, now: nat)
    requires triggers != []
    ensures Due(triggers, messages, energyRatio, lastCompactAt, now)
       <==> (|| Fires(triggers[0], messages, energyRatio, lastCompactAt, now)
             || Due(triggers[1..], messages, energyRatio, lastCompactAt, now))
  {
    hide Fires;
    if i :| 0 < i < |triggers| && Fires(triggers[i], messages, energyRatio, lastCompactAt, now) {
      assert triggers[1..][i - 1] == triggers[i];
    }
    if Due(triggers[1..], messages, energyRatio, lastCompactAt, now) {
      var i :| 0 <= i < |triggers| - 1 && Fires(triggers[1..][i], messages, energyRatio, lastCompactAt, now);
      assert triggers[i + 1] == triggers[1..][i];
    }
  }

  lemma {:induction false} SecsOfTimes(triggers: seq<Trigger>)
    requires forall i :: 0 <= i < |triggers| ==> triggers[i].TimeSecs?
    ensures LeastCount(triggers).None? && GreatestEnergy(triggers).None?
  {
    if triggers == [] {
    } else {
      SecsOfTimes(triggers[1..]);
    }
  }

  /** After a due poll the last compaction time is no earlier than that poll's, however the clock goes. */
  lemma {:induction false} DueMovesOn(ops: seq<Op>, i: nat, n: nat, config: Config)
    requires i < n <= |ops| && forall j :: 0 <= j < |config.triggers| ==> config.triggers[j].TimeSecs?
    requires DueAt(ops, i, config) && LeastSecs(config.triggers) != Some(0)
    ensures Run(ops, n, config).lastCompactAt >= ops[i].now
  {
    hide Due;
    if n == i + 1 {
    } else {
      DueMovesOn(ops, i, n - 1, config);
      var state, op := Run(ops, n - 1, config), ops[n - 1];
      if DueAt(ops, n - 1, config) {
        SecsOfTimes(config.triggers);
        DueByTheTightest(config.triggers, |state.messages|, op.energyRatio, state.lastCompactAt, op.now);
      }
    }
  }

  /** With time triggers alone, and none of no time at all, any two due polls are at least the shortest time apart. */
  lemma DuePollsAreSpaced(ops: seq<Op>, i: nat, j: nat, config: Config)
    requires i < j < |ops| && forall k :: 0 <= k < |config.triggers| ==> config.triggers[k].TimeSecs?
    requires DueAt(ops, i, config) && DueAt(ops, j, config) && LeastSecs(config.triggers) != Some(0)
    ensures LeastSecs(config.triggers).Some? && ops[j].now >= ops[i].now + LeastSecs(config.triggers).value
  {
    hide Due, Run;
    var state, op := Run(ops, j, config), ops[j];
    DueMovesOn(ops, i, j, config);
    SecsOfTimes(config.triggers);
    DueByTheTightest(config.triggers, |state.messages|, op.energyRatio, state.lastCompactAt, op.now);
  }

  // ---- What is reported ----

  /** A report of nothing means that nothing changed; any other counts what was removed, and the summary agrees. */
  lemma ReportsWhatItRemoved(messages: seq<Message>, cut: nat, summarize: bool, now: nat)
    requires cut <= |messages|
    ensures
      var r, after := Outcome(cut, now), Cut(messages, cut, summarize, now);
      && (r.NotNeeded? ==> after == messages)
      && (r.Compacted? ==>
            && 0 < r.compactedCount <= |messages| && r.compactedAt == now
            && after == (if summarize then [Summary(r.compactedCount, now)] else []) + messages[r.compactedCount..])
  {
  }

  // ---- One session compaction ----

  function Newest(messages: seq<Message>, n: nat): seq<Message> {
    messages[SaturatingSub(|messages|, n)..]
  }

  /**
   Above the threshold, and if there is anything besides the messages to be kept, a session compaction leaves one
   summary, which counts what it stands for, and then the newest messages; otherwise it leaves everything.
   */
  lemma SessionCompactionLeaves(state: State, strategy: Strategy, now: nat, config: Config)
    requires !strategy.Micro?
    ensures
      var before, after := state.messages, After(state, Compact(strategy, now), config).messages;
      var kept := config.limits.keepRecent;
      after == if |before| <= config.limits.threshold || |before| <= kept then before
               else [Summary(|before| - kept, now)] + Newest(before, kept)
  {
  }

  // ---- Repeated micro compaction ----

  function MicroRun(state: State, k: nat, now: nat, config: Config): State {
    if k == 0 then state else After(MicroRun(state, k - 1, now, config), Compact(Micro, now), config)
  }

  /** What is left of `n` messages after `dropped` have gone, as far as the minimum allows. */
  function Left(n: nat, dropped: nat, minimum: nat): nat {
    if n <= minimum then n else Max(SaturatingSub(n, dropped), minimum)
  }

  lemma MicroStep(state: State, now: nat, config: Config)
    ensures
      var before, after := state.messages, After(state, Compact(Micro, now), config).messages;
      after == Newest(before, Left(|before|, config.limits.batchSize, config.limits.keepMinimum))
  {
  }

  lemma NewestTwice(messages: seq<Message>, m: nat, n: nat)
    requires n <= m <= |messages|
    ensures Newest(Newest(messages, m), n) == Newest(messages, n)
  {
  }

  /** Each micro compaction drops a batch of the oldest, until only the minimum is left; fewer are left alone. */
  lemma {:induction false} MicroRunLeaves(state: State, k: nat, now: nat, config: Config)
    ensures
      var before, limits := state.messages, config.limits;
      MicroRun(state, k, now, config).messages
      == Newest(before, Left(|before|, k * limits.batchSize, limits.keepMinimum))
  {
    hide *;
    if k == 0 {
      NoneDropped(state, now, config);
      assert 0 * config.limits.batchSize == 0;
    } else {
      MicroRunLeaves(state, k - 1, now, config);
      MicroRunStep(state, k, now, config, (k - 1) * config.limits.batchSize);
      assert k * config.limits.batchSize == (k - 1) * config.limits.batchSize + config.limits.batchSize;
    }
  }

  lemma NoneDropped(state: State, now: nat, config: Config)
    ensures MicroRun(state, 0, now, config).messages
         == Newest(state.messages, Left(|state.messages|, 0, config.limits.keepMinimum))
  {
  }

  lemma MicroRunStep(state: State, k: nat, now: nat, config: Config, dropped: nat)
    requires k > 0
    requires MicroRun(state, k - 1, now, config).messages
          == Newest(state.messages, Left(|state.messages|, dropped, config.limits.keepMinimum))
    ensures MicroRun(state, k, now, config).messages
         == Newest(state.messages,
                   Left(|state.messages|, dropped + config.limits.batchSize, config.limits.keepMinimum))
  {
    hide After, Newest, Left;
    MicroStep(MicroRun(state, k - 1, now, config), now, config);
    LeftTwice(state.messages, dropped, config.limits.batchSize, config.limits.keepMinimum);
  }

  lemma LeftTwice(messages: seq<Message>, first: nat, second: nat, minimum: nat)
    ensures
      var n := |messages|;
      var middle := Newest(messages, Left(n, first, minimum));
      Newest(middle, Left(|middle|, second, minimum)) == Newest(messages, Left(n, first + second, minimum))
  {
    hide Newest;
    NewestSize(messages, Left(|messages|, first, minimum));
    NewestTwice(messages, Left(|messages|, first, minimum), Left(|messages|, first + second, minimum));
  }

  lemma NewestSize(messages: seq<Message>, n: nat)
    ensures |Newest(messages, n)| == Min(n, |messages|)
  {
  }

  /** With a positive batch size it gets down to the minimum, after as many calls as there are batches above it. */
  lemma MicroReachesTheMinimum(state: State, k: nat, now: nat, config: Config)
    requires |state.messages| >= config.limits.keepMinimum
    ensures |MicroRun(state, k, now, config).messages| == config.limits.keepMinimum
       <==> k * config.limits.batchSize >= |state.messages| - config.limits.keepMinimum
    ensures config.limits.batchSize > 0 && k >= |state.messages| - config.limits.keepMinimum ==>
      k * config.limits.batchSize >= |state.messages| - config.limits.keepMinimum
  {
    hide MicroRun, Newest;
    var batch := config.limits.batchSize;
    MicroRunLeaves(state, k, now, config);
    NewestSize(state.messages, Left(|state.messages|, k * batch, config.limits.keepMinimum));
    if k > 0 && batch > 0 { AtLeastOnce(k, batch); }
  }
}
