/**
 The decay engine (aether-economy/decay.js) and how its compound rule compares with itself run daily and
 with the wallet's linear rule (aether-economy/wallet.js). Powers are exact reals.
 */
module Decay {
  import opened TokenLedger
  import opened Wallet

  /** 99/100 of the amount for each day. */
  function Retained(amount: real, days: nat): real {
    if days == 0 then amount else Retained(amount, days - 1) * 0.99
  }

  /** What one catch-up over `days` days leaves. */
  function CaughtUp(balance: int, days: nat): int {
    Retained(balance as real, days).Floor
  }

  /** What `days` separate daily decays leave. */
  function Daily(balance: int, days: nat): int {
    if days == 0 then balance else CaughtUp(Daily(balance, days - 1), 1)
  }

  datatype Record = Record(agentId: string, days: nat, previousBalance: int, decayed: int, newBalance: int,
      timestamp: int)

  datatype DecayResult = Decayed(amount: int) | NoWallet

  lemma {:induction false} RetainedBounds(amount: real, days: nat)
    requires amount >= 0.0
    ensures 0.0 <= Retained(amount, days) <= amount
  {
    if days == 0 {
    } else {
      RetainedBounds(amount, days - 1);
    }
  }

  /** What the engine remembers, and the agent's balance. */
  datatype Decaying = Decaying(lastDecayRun: map<string, int>, history: seq<Record>, balance: int)

  /** When the agent was last decayed; a missing or zero entry counts as its creation. */
  function LastRun(lastDecayRun: map<string, int>, agentId: string, created: int): int {
    if agentId in lastDecayRun && lastDecayRun[agentId] != 0 then lastDecayRun[agentId] else created
  }

  /** One call for a wallet: only an agent with something to decay is charged, and only for whole days. */
  function AfterDecay(s: Decaying, agentId: string, kind: OwnerType, created: int, nowMs: int): Decaying {
    var elapsed := nowMs - LastRun(s.lastDecayRun, agentId, created);
    if kind != Agent || elapsed < DAY_MS || s.balance <= 0 then s
    else
      var days := elapsed / DAY_MS;
      var remaining := CaughtUp(s.balance, days);
      Decaying(s.lastDecayRun[agentId := nowMs],
               s.history + [Record(agentId, days, s.balance, s.balance - remaining, remaining, nowMs)],
               remaining)
  }

  class DecayEngine {
    var lastDecayRun: map<string, int>
    var history: seq<Record>

    constructor ()
      ensures lastDecayRun == map[] && history == []
    {
      lastDecayRun, history := map[], [];
    }

    /** The engine with one wallet. */
    function With(wallet: Wallet): Decaying
      reads this, wallet.ledger
    {
      Decaying(lastDecayRun, history, wallet.Balance(TOC_D))
    }

    method DecayAgent(agentId: string, wallet: Wallet?, nowMs: int) returns (r: DecayResult)
      requires wallet != null ==> wallet.ledger.Valid()
      modifies this, if wallet == null then {} else {wallet.ledger}
      ensures wallet != null ==> wallet.ledger.Valid()
      ensures wallet == null ==> r == NoWallet && lastDecayRun == old(lastDecayRun) && history == old(history)
      ensures wallet != null ==>
        var before := old(With(wallet));
        && With(wallet) == AfterDecay(before, agentId, wallet.ownerType, wallet.created, nowMs)
        && r == Decayed(before.balance - wallet.Balance(TOC_D))
        && wallet.ledger.BooksNow()
           == Burnt(old(wallet.ledger.BooksNow()), wallet.ownerId, TOC_D, before.balance - wallet.Balance(TOC_D),
                    "daily_decay")
    {
      if wallet == null {
        return NoWallet;
      }
      hide Retained;
      if wallet.ownerType != Agent {
        return Decayed(0);
      }
      var elapsed := nowMs - LastRun(lastDecayRun, agentId, wallet.created);
      if elapsed < DAY_MS {
        return Decayed(0);
      }
      var days := elapsed / DAY_MS;
      var currentBalance := wallet.Balance(TOC_D);
      if currentBalance <= 0 {
        return Decayed(0);
      }
      var remaining := CaughtUp(currentBalance, days);
      var decayAmount := currentBalance - remaining;
      RetainedBounds(currentBalance as real, days);
      if decayAmount > 0 {
        var spent := wallet.Spend(TOC_D, decayAmount, "daily_decay");
      }
      lastDecayRun := lastDecayRun[agentId := nowMs];
      history := history + [Record(agentId, days, currentBalance, decayAmount, remaining, nowMs)];
      r := Decayed(decayAmount);
    }
  }

  // ---- Daily decay against one catch-up ----

  /** How far daily rounding falls behind exact compound decay: less than one unit a day, and never 99. */
  lemma {:induction false} RoundingLoss(balance: int, days: nat)
    ensures 0.0 <= Retained(balance as real, days) - Daily(balance, days) as real
    ensures Retained(balance as real, days) - Daily(balance, days) as real <= 0.99 * days as real
    ensures Retained(balance as real, days) - Daily(balance, days) as real < 99.0
  {
    if days == 0 {
    } else {
      RoundingLoss(balance, days - 1);
      OneDay(Daily(balance, days - 1));
      hide CaughtUp;
    }
  }

  /** A day's rounding costs at most 99 hundredths, as a balance times 99 is a whole number of hundredths. */
  lemma OneDay(balance: int)
    ensures 0.0 <= balance as real * 0.99 - CaughtUp(balance, 1) as real <= 0.99
  {
    assert Retained(balance as real, 1) == balance as real * 0.99;
    var hundredths := 99 * balance;
    assert balance as real * 0.99 == hundredths as real / 100.0;
    assert CaughtUp(balance, 1) == hundredths / 100;
  }

  /** Daily decay ends at or below the catch-up, by at most `days - 1` units and never by 99 or more. */
  lemma DailyTrailsCatchUp(balance: int, days: nat)
    ensures 0 <= CaughtUp(balance, days) - Daily(balance, days) < 99
    ensures days >= 1 ==> CaughtUp(balance, days) - Daily(balance, days) <= days - 1
    ensures days == 0 ==> CaughtUp(balance, days) == Daily(balance, days)
  {
    hide Retained, Daily;
    RoundingLoss(balance, days);
  }

  // ---- Compound against linear ----

  /** Bernoulli's inequality: compound decay retains at least what linear decay would. */
  lemma {:induction false} Bernoulli(amount: real, days: nat)
    requires amount >= 0.0
    ensures Retained(amount, days) >= amount - amount * (days as real) / 100.0
  {
    if days == 0 {
    } else {
      Bernoulli(amount, days - 1);
      var d := (days - 1) as real;
      assert amount * days as real == amount * d + amount;
      assert amount * d >= 0.0;
    }
  }

  /** For any number of days the catch-up leaves at least what the linear rule leaves, less one unit. */
  lemma CatchUpBeatsLinear(balance: nat, days: nat)
    ensures CaughtUp(balance, days) >= balance - LinearDecay(balance, days) - 1
  {
    Bernoulli(balance as real, days);
    hide Retained;
    var product := balance * days;
    assert balance as real * days as real == product as real;
    assert product / 100 * 100 <= product < product / 100 * 100 + 100;
  }

  /** The bound is met: one unit over one day. */
  lemma CatchUpCanTrailByOne()
    ensures CaughtUp(1, 1) == 1 - LinearDecay(1, 1) - 1
  {
    OneDay(1);
    assert CaughtUp(1, 1) == 0;
  }

  /**
   The linear rule asks for more than there is, so its burn is refused, exactly from some day past the hundredth on.
   As a refusal leaves the decay clock alone, a wallet that reaches that day keeps being refused.
   */
  lemma LinearRefusedIff(balance: nat, days: nat)
    requires balance > 0
    ensures LinearDecay(balance, days) > balance <==> balance * days - balance * 100 >= 100
    ensures LinearDecay(balance, days) > balance ==> days > 100
  {
    var product := balance * days;
    assert product / 100 * 100 <= product < product / 100 * 100 + 100;
    if days <= 100 { assert balance * days <= balance * 100; }
  }

  lemma {:induction false} LinearStaysRefused(balance: nat, days: nat, later: nat)
    requires LinearDecay(balance, days) > balance && days <= later
    ensures LinearDecay(balance, later) > balance
  {
    assert balance * days <= balance * later;
  }

  // ---- Runs of linear decay ----

  /** What can happen to a wallet that is not debited: a credit, or a call of its decay. */
  datatype DecayOp = Credit(amount: nat) | Charge(now: int)

  datatype DecayState = DecayState(balance: int, lastDecay: int)

  function AfterDecayOp(state: DecayState, op: DecayOp): DecayState {
    match op
    case Credit(amount) => state.(balance := state.balance + amount)
    case Charge(now) =>
      var outcome := DecayOutcome(state.balance, state.lastDecay, now);
      if outcome.Err? then state
      else
        var lastDecay := if now - state.lastDecay >= DAY_MS then now else state.lastDecay;
        DecayState(state.balance - RealCharge(outcome.value), lastDecay)
  }

  /** Charges that are not positive burn nothing. */
  function RealCharge(amount: int): nat {
    if amount > 0 then amount else 0
  }

  /** An accepted charge is what the books burn from the owner. */
  lemma ChargeIsBurnt(books: Books, owner: string, amount: int, reason: string)
    ensures
      var account := Account(owner, TOC_D);
      BalanceIn(Burnt(books, owner, TOC_D, amount, reason).balances, account)
      == BalanceIn(books.balances, account) - RealCharge(amount)
  {
  }

  /** The linear decay of a run at call `i` is refused. */
  predicate RefusedAt(start: DecayState, ops: seq<DecayOp>, i: nat)
    requires i < |ops|
  {
    ops[i].Charge? && DecayOutcome(DecayRun(start, ops, i).balance, DecayRun(start, ops, i).lastDecay, ops[i].now).Err?
  }

  function DecayRun(start: DecayState, ops: seq<DecayOp>, n: nat): DecayState
    requires n <= |ops|
  {
    if n == 0 then start else AfterDecayOp(DecayRun(start, ops, n - 1), ops[n - 1])
  }

  ghost predicate ClockForward(ops: seq<DecayOp>) {
    forall i, j :: 0 <= i <= j < |ops| && ops[i].Charge? && ops[j].Charge? ==> ops[i].now <= ops[j].now
  }

  lemma UnfundedIsFree(balance: int, days: nat)
    requires balance <= 0
    ensures LinearDecay(balance, days) <= 0
  {
    assert balance * days <= 0;
  }

  lemma CreditKeepsRefused(balance: nat, days: nat, credit: nat)
    requires balance > 0 && LinearDecay(balance, days) > balance
    ensures LinearDecay(balance + credit, days) > balance + credit
  {
    LinearRefusedIff(balance, days);
    LinearRefusedIff(balance + credit, days);
    hide LinearDecay;
    assert credit * (days - 100) >= 0;
    assert (balance + credit) * days == balance * days + credit * days;
  }

  lemma DaysGrow(elapsed: int, later: int)
    requires DAY_MS <= elapsed <= later
    ensures 0 <= elapsed / DAY_MS <= later / DAY_MS
  {
  }

  /** A refusal outlasts any credit and any further time. */
  lemma RefusalPersists(balance: int, lastDecay: int, now: int, credit: nat, later: int)
    requires DecayOutcome(balance, lastDecay, now).Err? && now <= later
    ensures DecayOutcome(balance + credit, lastDecay, later).Err?
  {
    hide LinearDecay;
    DaysGrow(now - lastDecay, later - lastDecay);
    var days, more := (now - lastDecay) / DAY_MS, (later - lastDecay) / DAY_MS;
    if balance <= 0 { UnfundedIsFree(balance, days); }
    LinearStaysRefused(balance, days, more);
    CreditKeepsRefused(balance, more, credit);
  }

  /**
   Once a wallet's linear decay has been refused, every later call in the run is refused too, as long as nothing is
   debited in between: neither time nor credits help.
   */
  lemma {:induction false} RefusedForGood(start: DecayState, ops: seq<DecayOp>, i: nat, j: nat)
    requires i <= j < |ops| && RefusedAt(start, ops, i) && ClockForward(ops) && ops[j].Charge?
    ensures RefusedAt(start, ops, j)
  {
    var credit := OnlyCreditsSince(start, ops, i, j);
    RefusalPersists(DecayRun(start, ops, i).balance, DecayRun(start, ops, i).lastDecay, ops[i].now, credit, ops[j].now);
  }

  /** Between the refusal and call `j` the wallet was at most credited. */
  lemma {:induction false} OnlyCreditsSince(start: DecayState, ops: seq<DecayOp>, i: nat, j: nat) returns (credit: nat)
    requires i <= j < |ops| && RefusedAt(start, ops, i) && ClockForward(ops)
    ensures DecayRun(start, ops, j)
         == DecayState(DecayRun(start, ops, i).balance + credit, DecayRun(start, ops, i).lastDecay)
  {
    hide DecayOutcome;
    if i == j {
      return 0;
    }
    credit := OnlyCreditsSince(start, ops, i, j - 1);
    match ops[j - 1] {
      case Credit(amount) =>
        credit := credit + amount;
      case Charge(now) =>
        RefusalPersists(DecayRun(start, ops, i).balance, DecayRun(start, ops, i).lastDecay, ops[i].now, credit, now);
    }
  }
}
