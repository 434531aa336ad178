/**
 Runs of the decay engine (aether-economy/decay.js): calls for any agents at any times, told by the history it keeps,
 the balances and the times of the calls. Every day is charged at most once, and calls a day apart compound daily.
 */
module DecayRuns {
  import opened Wallet
  import opened Decay

  datatype AgentWallet = AgentWallet(kind: OwnerType, created: int, balance: int)

  datatype Call = Call(agentId: string, nowMs: int)

  /** The engine, and the registered wallets. */
  datatype State = State(lastDecayRun: map<string, int>, history: seq<Record>, wallets: map<string, AgentWallet>)

  /** A call for an agent without a wallet throws. */
  function AfterCall(s: State, call: Call): State {
    if call.agentId !in s.wallets then s
    else
      var w := s.wallets[call.agentId];
      var d := AfterDecay(Decaying(s.lastDecayRun, s.history, w.balance), call.agentId, w.kind, w.created, call.nowMs);
      State(d.lastDecayRun, d.history, s.wallets[call.agentId := w.(balance := d.balance)])
  }

  /** The first `n` calls of a new engine. Nothing but the engine touches the balances. */
  function Run(wallets: map<string, AgentWallet>, calls: seq<Call>, n: nat): State
    requires n <= |calls|
  {
    if n == 0 then State(map[], [], wallets) else AfterCall(Run(wallets, calls, n - 1), calls[n - 1])
  }

  /**
   No call for the agent at the epoch itself, which the engine takes for no call at all; or its wallet is not older than
   the epoch by a day, so that no such call can be due.
   */
  ghost predicate Clocked(wallets: map<string, AgentWallet>, calls: seq<Call>, agentId: string) {
    || (agentId in wallets && wallets[agentId].created > -DAY_MS)
    || forall i :: 0 <= i < |calls| && calls[i].agentId == agentId ==> calls[i].nowMs != 0
  }

  ghost predicate RecordOf(r: Record, history: seq<Record>, agentId: string) {
    r in history && r.agentId == agentId
  }

  // ---- What the engine remembers ----

  /** The remembered time is that of the agent's latest record; without one there is none. */
  ghost predicate Remembers(s: State, agentId: string) {
    if agentId in s.lastDecayRun then
      && s.lastDecayRun[agentId] != 0 && agentId in s.wallets
      && s.lastDecayRun[agentId] - s.wallets[agentId].created >= DAY_MS
      && (exists r :: RecordOf(r, s.history, agentId) && r.timestamp == s.lastDecayRun[agentId])
      && forall r :: RecordOf(r, s.history, agentId) ==> r.timestamp <= s.lastDecayRun[agentId]
    else forall r :: !RecordOf(r, s.history, agentId)
  }

  /** Whether a call appends a record. */
  predicate Charged(s: State, call: Call) {
    AfterCall(s, call).history != s.history
  }

  lemma ChargeStep(s: State, call: Call)
    ensures !Charged(s, call) ==> AfterCall(s, call) == s
    ensures Charged(s, call) <==>
      && call.agentId in s.wallets && s.wallets[call.agentId].kind == Agent && s.wallets[call.agentId].balance > 0
      && call.nowMs - LastRun(s.lastDecayRun, call.agentId, s.wallets[call.agentId].created) >= DAY_MS
    ensures Charged(s, call) ==>
      var w, s' := s.wallets[call.agentId], AfterCall(s, call);
      var days := (call.nowMs - LastRun(s.lastDecayRun, call.agentId, w.created)) / DAY_MS;
      var left := CaughtUp(w.balance, days);
      && s'.lastDecayRun == s.lastDecayRun[call.agentId := call.nowMs]
      && s'.history == s.history + [Record(call.agentId, days, w.balance, w.balance - left, left, call.nowMs)]
      && s'.wallets == s.wallets[call.agentId := w.(balance := left)]
  {
    hide CaughtUp;
    assert call.agentId in s.wallets ==> s.wallets == s.wallets[call.agentId := s.wallets[call.agentId]];
  }

  lemma CallRemembers(s: State, call: Call, agentId: string)
    requires Remembers(s, agentId)
    requires call.agentId == agentId && call.nowMs == 0 && agentId in s.wallets ==> s.wallets[agentId].created > -DAY_MS
    ensures Remembers(AfterCall(s, call), agentId)
  {
    hide CaughtUp, AfterCall, Charged;
    ChargeStep(s, call);
    if Charged(s, call) {
      var s' := AfterCall(s, call);
      var newest := s'.history[|s.history|];
      assert RecordOf(newest, s'.history, call.agentId);
      forall r | RecordOf(r, s'.history, agentId) ensures r == newest || RecordOf(r, s.history, agentId) {
      }
      forall r | RecordOf(r, s.history, agentId) ensures RecordOf(r, s'.history, agentId) {
      }
    }
  }

  lemma {:induction false} RunRemembers(wallets: map<string, AgentWallet>, calls: seq<Call>, n: nat, agentId: string)
    requires n <= |calls| && Clocked(wallets, calls, agentId)
    ensures Remembers(Run(wallets, calls, n), agentId)
  {
    hide AfterCall;
    if n == 0 {
    } else {
      RunRemembers(wallets, calls, n - 1, agentId);
      SameWallets(wallets, calls, n - 1);
      hide Remembers;
      CallRemembers(Run(wallets, calls, n - 1), calls[n - 1], agentId);
    }
  }

  lemma {:induction false} SameWallets(wallets: map<string, AgentWallet>, calls: seq<Call>, n: nat)
    requires n <= |calls|
    ensures
      var now := Run(wallets, calls, n).wallets;
      now.Keys == wallets.Keys && forall a :: a in wallets ==> now[a].(balance := 0) == wallets[a].(balance := 0)
  {
    hide AfterCall, Charged, CaughtUp;
    if n == 0 {
    } else {
      SameWallets(wallets, calls, n - 1);
      ChargeStep(Run(wallets, calls, n - 1), calls[n - 1]);
    }
  }

  // ---- When a call charges ----

  /**
   Over any run a call charges exactly when it is for an agent with something to decay, at least a day after the wallet
   was created and after every record of that agent so far; otherwise it changes nothing.
   */
  lemma ChargesIff(wallets: map<string, AgentWallet>, calls: seq<Call>, n: nat)
    requires n < |calls| && Clocked(wallets, calls, calls[n].agentId)
    ensures
      var s, s' := Run(wallets, calls, n), Run(wallets, calls, n + 1);
      var agentId, nowMs := calls[n].agentId, calls[n].nowMs;
      && (s'.history != s.history <==>
            && agentId in wallets && wallets[agentId].kind == Agent
            && agentId in s.wallets && s.wallets[agentId].balance > 0
            && nowMs - wallets[agentId].created >= DAY_MS
            && forall r :: RecordOf(r, s.history, agentId) ==> nowMs - r.timestamp >= DAY_MS)
      && (s'.history == s.history ==> s' == s)
  {
    hide CaughtUp, AfterCall, AfterDecay;
    var s := Run(wallets, calls, n);
    SameWallets(wallets, calls, n);
    RunRemembers(wallets, calls, n, calls[n].agentId);
    ChargeStep(s, calls[n]);
  }

  // ---- How many days are charged ----

  /** The days in the agent's records, together. */
  function DaysCharged(history: seq<Record>, agentId: string): nat {
    if history == [] then 0
    else
      var last := history[|history| - 1];
      DaysCharged(history[..|history| - 1], agentId) + if last.agentId == agentId then last.days else 0
  }

  lemma DaysSnoc(history: seq<Record>, r: Record, agentId: string)
    ensures DaysCharged(history + [r], agentId)
         == DaysCharged(history, agentId) + if r.agentId == agentId then r.days else 0
  {
    assert (history + [r])[..|history|] == history;
  }

  lemma {:induction false} DaysFit(wallets: map<string, AgentWallet>, calls: seq<Call>, n: nat, agentId: string)
    requires n <= |calls| && Clocked(wallets, calls, agentId) && agentId in wallets
    ensures
      var s := Run(wallets, calls, n);
      DaysCharged(s.history, agentId) * DAY_MS
      <= LastRun(s.lastDecayRun, agentId, wallets[agentId].created) - wallets[agentId].created
  {
    hide CaughtUp, AfterCall, Charged;
    if n == 0 {
    } else {
      var s, call := Run(wallets, calls, n - 1), calls[n - 1];
      DaysFit(wallets, calls, n - 1, agentId);
      SameWallets(wallets, calls, n - 1);
      hide DaysCharged, Remembers;
      ChargeStep(s, call);
      if Charged(s, call) { DaysSnoc(s.history, AfterCall(s, call).history[|s.history|], agentId); }
    }
  }

  /** No day is charged twice: an agent's records hold no more days than fit between its creation and the latest. */
  lemma EachDayIsChargedOnce(wallets: map<string, AgentWallet>, calls: seq<Call>, n: nat, agentId: string, nowMs: int)
    requires n <= |calls| && Clocked(wallets, calls, agentId) && agentId in wallets && wallets[agentId].created <= nowMs
    requires forall r :: RecordOf(r, Run(wallets, calls, n).history, agentId) ==> r.timestamp <= nowMs
    ensures DaysCharged(Run(wallets, calls, n).history, agentId) <= (nowMs - wallets[agentId].created) / DAY_MS
  {
    hide DaysCharged, Run;
    DaysFit(wallets, calls, n, agentId);
    RunRemembers(wallets, calls, n, agentId);
  }

  // ---- What the days cost ----

  lemma {:induction false} RetainedGrows(a: real, b: real, days: nat)
    requires a <= b
    ensures Retained(a, days) <= Retained(b, days)
  {
    if days == 0 {
    } else {
      RetainedGrows(a, b, days - 1);
    }
  }

  lemma {:induction false} RetainedTwice(amount: real, m: nat, n: nat)
    ensures Retained(Retained(amount, m), n) == Retained(amount, m + n)
  {
    if n == 0 {
    } else {
      RetainedTwice(amount, m, n - 1);
    }
  }

  lemma {:induction false} DailyTwice(balance: int, m: nat, n: nat)
    ensures Daily(Daily(balance, m), n) == Daily(balance, m + n)
  {
    hide CaughtUp;
    if n == 0 {
    } else {
      DailyTwice(balance, m, n - 1);
    }
  }

  lemma CaughtUpGrows(a: int, b: int, days: nat)
    requires a <= b
    ensures CaughtUp(a, days) <= CaughtUp(b, days)
  {
    RetainedGrows(a as real, b as real, days);
  }

  /** Catching up twice rounds twice, so it leaves no more than once over all the days. */
  lemma CaughtUpTwice(balance: int, m: nat, n: nat)
    ensures CaughtUp(CaughtUp(balance, m), n) <= CaughtUp(balance, m + n)
  {
    RetainedGrows(CaughtUp(balance, m) as real, Retained(balance as real, m), n);
    RetainedTwice(balance as real, m, n);
  }

  lemma DailyIsNat(balance: nat, days: nat)
    ensures Daily(balance, days) >= 0
    ensures CaughtUp(balance, days) >= 0
  {
    RetainedBounds(balance as real, days);
    if days > 0 {
      DailyIsNat(balance, days - 1);
      RetainedBounds(Daily(balance, days - 1) as real, 1);
    }
  }

  /** However the calls come, the balance lies between daily decay and one catch-up over the days charged. */
  lemma {:induction false} BalanceBetween(wallets: map<string, AgentWallet>, calls: seq<Call>, n: nat, agentId: string)
    requires n <= |calls| && agentId in wallets && wallets[agentId].balance >= 0
    ensures
      var s := Run(wallets, calls, n);
      var days := DaysCharged(s.history, agentId);
      && agentId in s.wallets
      && Daily(wallets[agentId].balance, days) <= s.wallets[agentId].balance
      && s.wallets[agentId].balance <= CaughtUp(wallets[agentId].balance, days)
  {
    hide CaughtUp, Daily, AfterCall, Charged;
    if n == 0 {
      DailyTrailsCatchUp(wallets[agentId].balance, 0);
      NoDays(wallets[agentId].balance);
    } else {
      var s, call := Run(wallets, calls, n - 1), calls[n - 1];
      BalanceBetween(wallets, calls, n - 1, agentId);
      SameWallets(wallets, calls, n - 1);
      hide DaysCharged, LastRun;
      ChargeStep(s, call);
      if Charged(s, call) {
        var r := AfterCall(s, call).history[|s.history|];
        DaysSnoc(s.history, r, agentId);
        if r.agentId == agentId {
          BetweenStep(wallets[agentId].balance, DaysCharged(s.history, agentId), r.days, s.wallets[agentId].balance);
        }
      }
    }
  }

  lemma NoDays(balance: int)
    ensures Daily(balance, 0) == balance == CaughtUp(balance, 0)
  {
  }

  lemma BetweenStep(balance: nat, m: nat, n: nat, left: int)
    requires Daily(balance, m) <= left <= CaughtUp(balance, m)
    ensures Daily(balance, m + n) <= CaughtUp(left, n) <= CaughtUp(balance, m + n)
  {
    hide CaughtUp, Daily;
    DailyIsNat(balance, m);
    DailyTwice(balance, m, n);
    DailyTrailsCatchUp(Daily(balance, m), n);
    CaughtUpGrows(Daily(balance, m), left, n);
    CaughtUpGrows(left, CaughtUp(balance, m), n);
    CaughtUpTwice(balance, m, n);
  }

  // ---- A call a day ----

  /** The times of the calls for one agent. */
  function TimesOf(calls: seq<Call>, n: nat, agentId: string): seq<int>
    requires n <= |calls|
  {
    if n == 0 then []
    else TimesOf(calls, n - 1, agentId) + if calls[n - 1].agentId == agentId then [calls[n - 1].nowMs] else []
  }

  /** The time of call `i`, counting the creation as the one before the first. */
  function TimeBefore(times: seq<int>, created: int, i: nat): int
    requires i <= |times|
  {
    if i == 0 then created else times[i - 1]
  }

  /** Each call comes a day, and not yet two, after the one before it. */
  ghost predicate OnSuccessiveDays(times: seq<int>, created: int) {
    forall i :: 0 <= i < |times| ==> DAY_MS <= times[i] - TimeBefore(times, created, i) < 2 * DAY_MS
  }

  lemma {:induction false} DailyCalls(wallets: map<string, AgentWallet>, calls: seq<Call>, n: nat, agentId: string)
    requires n <= |calls| && Clocked(wallets, calls, agentId) && agentId in wallets
    requires wallets[agentId].kind == Agent && wallets[agentId].balance >= 0
    requires OnSuccessiveDays(TimesOf(calls, n, agentId), wallets[agentId].created)
    ensures
      var s, times := Run(wallets, calls, n), TimesOf(calls, n, agentId);
      && agentId in s.wallets && s.wallets[agentId].balance == Daily(wallets[agentId].balance, |times|)
      && (s.wallets[agentId].balance > 0 ==>
            LastRun(s.lastDecayRun, agentId, wallets[agentId].created)
            == TimeBefore(times, wallets[agentId].created, |times|))
  {
    hide AfterCall, Daily, LastRun;
    if n == 0 {
      NotYetCharged(agentId, wallets[agentId]);
    } else {
      var s, call, created := Run(wallets, calls, n - 1), calls[n - 1], wallets[agentId].created;
      var times, before := TimesOf(calls, n, agentId), TimesOf(calls, n - 1, agentId);
      SuccessiveBefore(before, times, created);
      DailyCalls(wallets, calls, n - 1, agentId);
      SameWallets(wallets, calls, n - 1);
      if call.agentId == agentId {
        assert TimeBefore(times, created, |before|) == TimeBefore(before, created, |before|);
        SuccessiveIsLater(times, created, |before|);
        DailyStep(s, call, wallets[agentId].balance, |before|, TimeBefore(before, created, |before|));
      } else {
        OtherCall(s, call, agentId, created);
      }
    }
  }

  lemma NotYetCharged(agentId: string, w: AgentWallet)
    ensures LastRun(map[], agentId, w.created) == w.created && Daily(w.balance, 0) == w.balance
  {
  }

  /** A call for another agent. */
  lemma OtherCall(s: State, call: Call, agentId: string, created: int)
    requires call.agentId != agentId && agentId in s.wallets
    ensures
      var s' := AfterCall(s, call);
      && agentId in s'.wallets && s'.wallets[agentId] == s.wallets[agentId]
      && LastRun(s'.lastDecayRun, agentId, created) == LastRun(s.lastDecayRun, agentId, created)
  {
    hide CaughtUp;
  }

  lemma DailyStep(s: State, call: Call, balance: nat, days: nat, last: int)
    requires call.nowMs != 0 && DAY_MS <= call.nowMs - last < 2 * DAY_MS
    requires call.agentId in s.wallets && s.wallets[call.agentId].kind == Agent
    requires
      var w := s.wallets[call.agentId];
      && w.balance == Daily(balance, days)
      && (w.balance > 0 ==> LastRun(s.lastDecayRun, call.agentId, w.created) == last)
    ensures
      var w, s' := s.wallets[call.agentId], AfterCall(s, call);
      && call.agentId in s'.wallets && s'.wallets[call.agentId].balance == Daily(balance, days + 1)
      && (s'.wallets[call.agentId].balance > 0 ==> LastRun(s'.lastDecayRun, call.agentId, w.created) == call.nowMs)
  {
    hide CaughtUp, AfterCall, Charged;
    ChargeStep(s, call);
    DailyIsNat(balance, days);
    NothingDecaysToNothing();
  }

  lemma {:induction false} SuccessiveIsLater(times: seq<int>, created: int, i: nat)
    requires i < |times| && OnSuccessiveDays(times, created)
    ensures times[i] >= created + DAY_MS
  {
    if i == 0 {
      assert TimeBefore(times, created, 0) == created;
    } else {
      SuccessiveIsLater(times, created, i - 1);
    }
  }

  lemma SuccessiveBefore(before: seq<int>, times: seq<int>, created: int)
    requires before <= times && OnSuccessiveDays(times, created)
    ensures OnSuccessiveDays(before, created)
  {
    forall i | 0 <= i < |before| ensures DAY_MS <= before[i] - TimeBefore(before, created, i) < 2 * DAY_MS {
      assert TimeBefore(before, created, i) == TimeBefore(times, created, i);
    }
  }

  lemma NothingDecaysToNothing()
    ensures CaughtUp(0, 1) == 0
  {
    assert Retained(0.0, 1) == 0.0;
  }

  /** Calls on successive days leave exactly the daily decay, a little less than one catch-up over the same days. */
  lemma DailyCallsDecayDaily(wallets: map<string, AgentWallet>, calls: seq<Call>, n: nat, agentId: string)
    requires n <= |calls| && Clocked(wallets, calls, agentId) && agentId in wallets
    requires wallets[agentId].kind == Agent && wallets[agentId].balance >= 0
    requires OnSuccessiveDays(TimesOf(calls, n, agentId), wallets[agentId].created)
    ensures
      var left, days := Run(wallets, calls, n).wallets, |TimesOf(calls, n, agentId)|;
      && agentId in left && left[agentId].balance == Daily(wallets[agentId].balance, days)
      && 0 <= CaughtUp(wallets[agentId].balance, days) - left[agentId].balance < 99
  {
    hide CaughtUp, Daily, Run, TimesOf;
    DailyCalls(wallets, calls, n, agentId);
    DailyTrailsCatchUp(wallets[agentId].balance, |TimesOf(calls, n, agentId)|);
  }

  /** The epoch is not a time to the engine: a call then is forgotten, and the days up to it are charged again. */
  lemma EpochIsForgotten()
    ensures
      var wallets := map["a" := AgentWallet(Agent, -DAY_MS, 1000)];
      DaysCharged(Run(wallets, [Call("a", 0), Call("a", 1)], 2).history, "a") == 2
  {
    hide AfterCall, Charged, CaughtUp;
    var w := AgentWallet(Agent, -DAY_MS, 1000);
    var start := State(map[], [], map["a" := w]);
    var first, second := Call("a", 0), Call("a", 1);
    TwoCalls(start.wallets, first, second);
    OneDay(1000);
    OneDayCharged(start, first, w);
    var middle := AfterCall(start, first);
    OneDayCharged(middle, second, middle.wallets["a"]);
    DaysSnoc([], middle.history[0], "a");
    DaysSnoc(middle.history, AfterCall(middle, second).history[1], "a");
  }

  lemma TwoCalls(wallets: map<string, AgentWallet>, a: Call, b: Call)
    ensures Run(wallets, [a, b], 2) == AfterCall(AfterCall(State(map[], [], wallets), a), b)
  {
    hide AfterCall;
    assert Run(wallets, [a, b], 1) == AfterCall(State(map[], [], wallets), a);
  }

  /** With no call but one at the epoch to go by, a call a day after the creation charges a day. */
  lemma OneDayCharged(s: State, call: Call, w: AgentWallet)
    requires s.wallets == map[call.agentId := w] && w.kind == Agent && w.balance > 0
    requires call.agentId in s.lastDecayRun ==> s.lastDecayRun[call.agentId] == 0
    requires DAY_MS <= call.nowMs - w.created < 2 * DAY_MS
    ensures
      var s' := AfterCall(s, call);
      && s'.history == s.history + [Record(call.agentId, 1, w.balance, w.balance - CaughtUp(w.balance, 1),
                                           CaughtUp(w.balance, 1), call.nowMs)]
      && s'.wallets == map[call.agentId := w.(balance := CaughtUp(w.balance, 1))]
      && s'.lastDecayRun == s.lastDecayRun[call.agentId := call.nowMs]
  {
    hide CaughtUp;
  }

  // ---- The wallet's own decay ----

  /**
   A call of the wallet's own decay within a day of the last does nothing. From a day on it takes one per cent of the
   balance for each whole day, rounded down, and starts the next day; unless that is more than there is, which takes a
   hundred days and one whole unit more: then it is refused, and changes nothing.
   */
  lemma LinearCall(state: DecayState, now: int)
    requires state.balance >= 0
    ensures
      var elapsed := now - state.lastDecay;
      var days := elapsed / DAY_MS;
      var outcome, after := DecayOutcome(state.balance, state.lastDecay, now), AfterDecayOp(state, Charge(now));
      var taken := state.balance - after.balance;
      && (outcome.Err? <==> elapsed >= DAY_MS && state.balance > 0 && state.balance * days - state.balance * 100 >= 100)
      && (outcome.Err? || elapsed < DAY_MS ==> after == state)
      && (outcome.Ok? ==> outcome.value == taken >= 0 && after.balance >= 0)
      && (outcome.Ok? && elapsed >= DAY_MS ==>
            after.lastDecay == now && taken * 100 <= state.balance * days < taken * 100 + 100)
  {
    var elapsed := now - state.lastDecay;
    if elapsed >= DAY_MS {
      WholeDays(elapsed);
      var product := state.balance * (elapsed / DAY_MS);
      assert product >= 0 && product / 100 * 100 <= product < product / 100 * 100 + 100;
      if state.balance > 0 { LinearRefusedIff(state.balance, elapsed / DAY_MS); }
    }
  }

  lemma WholeDays(elapsed: int)
    requires elapsed >= DAY_MS
    ensures elapsed / DAY_MS >= 1
  {
  }

  /** The days that accepted calls of a run have charged. */
  function LinearDays(start: DecayState, ops: seq<DecayOp>, n: nat): int
    requires n <= |ops|
  {
    if n == 0 then 0
    else
      var before := DecayRun(start, ops, n - 1);
      LinearDays(start, ops, n - 1)
      + if ops[n - 1].Charge? && DecayRun(start, ops, n) != before
        then (ops[n - 1].now - before.lastDecay) / DAY_MS else 0
  }

  /** These too fit into the time since the start, however the calls come. */
  lemma {:induction false} LinearDaysFit(start: DecayState, ops: seq<DecayOp>, n: nat)
    requires n <= |ops| && start.balance >= 0
    ensures DecayRun(start, ops, n).balance >= 0
    ensures LinearDays(start, ops, n) * DAY_MS <= DecayRun(start, ops, n).lastDecay - start.lastDecay
  {
    hide DecayOutcome;
    if n == 0 {
    } else {
      LinearDaysFit(start, ops, n - 1);
      if ops[n - 1].Charge? { LinearCall(DecayRun(start, ops, n - 1), ops[n - 1].now); }
    }
  }
}
