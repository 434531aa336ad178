/**
 An agent's wallet (aether-economy/wallet.js): locking tokens into purpose pools, spending, and the linear
 daily decay. Events, identity and the birth endowment are not modelled; the clock is a parameter.
 */
module Wallet {
  import opened TokenLedger
  import opened TokenLedgerProperties
  import opened Wrappers

  const DAY_MS := 86_400_000

  datatype OwnerType = Agent | Human

  /** What a wallet can reach: the shared books and its own locked pools, each pool an account named by its purpose. */
  datatype Purse = Purse(books: Books, locked: map<Account, int>)

  /** A burn as the books see it. */
  function Burnt(books: Books, holder: string, token: Token, amount: int, reason: string): Books {
    if amount <= 0 then books else Posted(books, BurnTx(holder, token, amount, reason))
  }

  function Locked(purse: Purse, owner: string, token: Token, amount: int, purpose: string): Purse {
    if BalanceIn(purse.books.balances, Account(owner, token)) < amount then purse
    else Purse(Burnt(purse.books, owner, token, amount, "lock_" + purpose),
               Credited(purse.locked, Account(purpose, token), amount))
  }

  function Unlocked(purse: Purse, owner: string, token: Token, purpose: string): Purse {
    var amount := BalanceIn(purse.locked, Account(purpose, token));
    if amount <= 0 then purse
    else Purse(Posted(purse.books, MintTx(owner, token, amount, "vm_conversion")),
               purse.locked[Account(purpose, token) := 0])
  }

  /** One per cent of the balance for each whole day, rounded down. */
  function LinearDecay(balance: int, days: nat): int {
    (balance * days) / 100
  }

  /**
   The outcome of a linear decay at `now`: nothing within the day, else the charge, refused when it exceeds the
   balance.
   */
  function DecayOutcome(balance: int, lastDecay: int, now: int): Result<int, LedgerError> {
    if now - lastDecay < DAY_MS then Ok(0)
    else
      var amount := LinearDecay(balance, (now - lastDecay) / DAY_MS);
      if amount > 0 && amount > balance then Err(Insufficient(balance, amount)) else Ok(amount)
  }

  class Wallet {
    const ownerId: string
    const ownerType: OwnerType
    const ledger: TokenLedger
    const created: int
    var locked: map<Account, int>
    var lastDecay: int

    constructor (owner: string, kind: OwnerType, books: TokenLedger, now: int)
      ensures ownerId == owner && ownerType == kind && ledger == books
      ensures created == now && locked == map[] && lastDecay == now
    {
      ownerId, ownerType, ledger := owner, kind, books;
      created, locked, lastDecay := now, map[], now;
    }

    function PurseNow(): Purse
      reads this, ledger
    {
      Purse(ledger.BooksNow(), locked)
    }

    function Balance(token: Token): int
      reads ledger
    {
      ledger.Balance(ownerId, token)
    }

    method Lock(token: Token, amount: int, purpose: string) returns (r: Result<int, LedgerError>)
      requires ledger.Valid()
      modifies this`locked, ledger
      ensures ledger.Valid()
      ensures r == if old(Balance(token)) < amount then Err(Insufficient(old(Balance(token)), amount)) else Ok(amount)
      ensures PurseNow() == Locked(old(PurseNow()), ownerId, token, amount, purpose)
    {
      hide Replay;
      var bal := ledger.Balance(ownerId, token);
      if bal < amount {
        return Err(Insufficient(bal, amount));
      }
      ghost var log := ledger.transactions;
      var burnt := ledger.Burn(ownerId, token, amount, "lock_" + purpose);
      if amount > 0 {
        LongerLog(log, BurnTx(ownerId, token, amount, "lock_" + purpose));
      } else {
        assert log + [] == log;
      }
      var pool := Account(purpose, token);
      locked := locked[pool := BalanceIn(locked, pool) + amount];
      r := Ok(amount);
    }

    method Unlock(token: Token, purpose: string) returns (amount: int)
      requires ledger.Valid()
      modifies this`locked, ledger
      ensures ledger.Valid()
      ensures amount == BalanceIn(old(locked), Account(purpose, token))
      ensures PurseNow() == Unlocked(old(PurseNow()), ownerId, token, purpose)
    {
      hide Replay;
      var pool := Account(purpose, token);
      amount := BalanceIn(locked, pool);
      if amount > 0 {
        ghost var log := ledger.transactions;
        var minted := ledger.Mint(ownerId, token, amount, "vm_conversion");
        LongerLog(log, MintTx(ownerId, token, amount, "vm_conversion"));
        locked := locked[pool := 0];
      }
    }

    method Spend(token: Token, amount: int, reason: string) returns (r: Result<(), LedgerError>)
      requires ledger.Valid()
      modifies ledger
      ensures ledger.Valid()
      ensures
        if amount > 0 && old(Balance(token)) < amount then
          r == Err(Insufficient(old(Balance(token)), amount)) && ledger.BooksNow() == old(ledger.BooksNow())
        else r == Ok(()) && ledger.BooksNow() == Burnt(old(ledger.BooksNow()), ownerId, token, amount, reason)
    {
      hide Replay;
      ghost var log := ledger.transactions;
      var burnt := ledger.Burn(ownerId, token, amount, reason);
      if burnt.Err? {
        return Err(burnt.error);
      }
      if amount > 0 { LongerLog(log, BurnTx(ownerId, token, amount, reason)); } else { assert log + [] == log; }
      r := Ok(());
    }

    /** Charges the whole days since the last decay. A refused burn leaves the clock where it was. */
    method ApplyDecay(now: int) returns (r: Result<int, LedgerError>)
      requires ledger.Valid()
      modifies this`lastDecay, ledger
      ensures ledger.Valid()
      ensures r == DecayOutcome(old(Balance(TOC_D)), old(lastDecay), now)
      ensures lastDecay == if r.Ok? && now - old(lastDecay) >= DAY_MS then now else old(lastDecay)
      ensures ledger.BooksNow() ==
        if r.Ok? then Burnt(old(ledger.BooksNow()), ownerId, TOC_D, r.value, "daily_decay") else old(ledger.BooksNow())
    {
      var elapsed := now - lastDecay;
      if elapsed < DAY_MS {
        return Ok(0);
      }
      hide Replay, LinearDecay;
      var days := elapsed / DAY_MS;
      var bal := Balance(TOC_D);
      var decayAmount := LinearDecay(bal, days);
      if decayAmount > 0 {
        var spent := Spend(TOC_D, decayAmount, "daily_decay");
        if spent.Err? {
          return Err(spent.error);
        }
      }
      lastDecay := now;
      r := Ok(decayAmount);
    }
  }

  // ---- Locking conserves ----

  /** What the owner has of a token, free or locked. */
  ghost function Held(purse: Purse, owner: string, token: Token): int {
    BalanceIn(purse.books.balances, Account(owner, token)) + TokenSum(purse.locked, token)
  }

  /** Supply in circulation or locked in this wallet. */
  ghost function Backed(purse: Purse, token: Token): int {
    purse.books.totalSupply.At(token) + TokenSum(purse.locked, token)
  }

  /** An accepted lock keeps what the owner holds exactly when its amount is not negative. */
  lemma LockConservesIff(purse: Purse, owner: string, token: Token, amount: int, purpose: string)
    requires amount <= BalanceIn(purse.books.balances, Account(owner, token))
    ensures
      var after := Locked(purse, owner, token, amount, purpose);
      && (Held(after, owner, token) == Held(purse, owner, token) <==> amount >= 0)
      && (Backed(after, token) == Backed(purse, token) <==> amount >= 0)
  {
    SumCredited(purse.locked, Account(purpose, token), amount, token);
    hide TokenSum;
  }

  /** A covered lock of a positive amount moves it from the balance to the pool; an uncovered one moves nothing. */
  lemma LockMoves(purse: Purse, owner: string, token: Token, amount: int, purpose: string)
    requires amount > 0
    ensures
      var after := Locked(purse, owner, token, amount, purpose);
      var account, pool := Account(owner, token), Account(purpose, token);
      if amount > BalanceIn(purse.books.balances, account) then after == purse
      else
        && BalanceIn(after.books.balances, account) == BalanceIn(purse.books.balances, account) - amount
        && BalanceIn(after.locked, pool) == BalanceIn(purse.locked, pool) + amount
        && (forall a :: a != account ==> BalanceIn(after.books.balances, a) == BalanceIn(purse.books.balances, a))
        && forall p :: p != pool ==> BalanceIn(after.locked, p) == BalanceIn(purse.locked, p)
  {
  }

  /** An unlock moves all of a positive pool to the balance, and leaves any other alone. */
  lemma UnlockMoves(purse: Purse, owner: string, token: Token, purpose: string)
    ensures
      var after := Unlocked(purse, owner, token, purpose);
      var account, pool := Account(owner, token), Account(purpose, token);
      var amount := BalanceIn(purse.locked, pool);
      if amount <= 0 then after == purse
      else
        && BalanceIn(after.books.balances, account) == BalanceIn(purse.books.balances, account) + amount
        && BalanceIn(after.locked, pool) == 0
        && (forall a :: a != account ==> BalanceIn(after.books.balances, a) == BalanceIn(purse.books.balances, a))
        && forall p :: p != pool ==> BalanceIn(after.locked, p) == BalanceIn(purse.locked, p)
  {
  }

  lemma UnlockConserves(purse: Purse, owner: string, token: Token, purpose: string)
    ensures
      var after := Unlocked(purse, owner, token, purpose);
      && Held(after, owner, token) == Held(purse, owner, token) && Backed(after, token) == Backed(purse, token)
      && BalanceIn(after.locked, Account(purpose, token)) <= 0
  {
    var pool := Account(purpose, token);
    SumCredited(purse.locked, pool, -BalanceIn(purse.locked, pool), token);
    hide TokenSum;
  }

  /**
   Locking into an empty pool and unlocking it restores the balance, the supply and the pool; only the burn total
   remembers.
   */
  lemma LockUnlockRoundTrip(purse: Purse, owner: string, token: Token, amount: int, purpose: string)
    requires 0 < amount <= BalanceIn(purse.books.balances, Account(owner, token))
    requires BalanceIn(purse.locked, Account(purpose, token)) == 0
    ensures
      var back := Unlocked(Locked(purse, owner, token, amount, purpose), owner, token, purpose);
      && (forall a :: BalanceIn(back.books.balances, a) == BalanceIn(purse.books.balances, a))
      && (forall pool :: BalanceIn(back.locked, pool) == BalanceIn(purse.locked, pool))
      && back.books.totalSupply == purse.books.totalSupply
      && back.books.burnedTotal == purse.books.burnedTotal.Plus(token, amount)
  {
  }

  datatype PoolOp = LockOp(token: Token, amount: int, purpose: string) | UnlockOp(token: Token, purpose: string)

  function AfterPoolOp(purse: Purse, owner: string, op: PoolOp): Purse {
    match op
    case LockOp(token, amount, purpose) => Locked(purse, owner, token, amount, purpose)
    case UnlockOp(token, purpose) => Unlocked(purse, owner, token, purpose)
  }

  function PoolRun(purse: Purse, owner: string, ops: seq<PoolOp>, n: nat): Purse
    requires n <= |ops|
  {
    if n == 0 then purse else AfterPoolOp(PoolRun(purse, owner, ops, n - 1), owner, ops[n - 1])
  }

  /** The amount an operation makes disappear: that of an accepted lock of a negative amount. */
  function Lost(purse: Purse, owner: string, op: PoolOp, token: Token): nat {
    if op.LockOp? && op.token == token && op.amount < 0
        && op.amount <= BalanceIn(purse.books.balances, Account(owner, token))
    then -op.amount
    else 0
  }

  lemma PoolOpConserves(purse: Purse, owner: string, op: PoolOp, token: Token)
    ensures Held(AfterPoolOp(purse, owner, op), owner, token)
        == Held(purse, owner, token) - Lost(purse, owner, op, token)
    ensures Backed(AfterPoolOp(purse, owner, op), token) == Backed(purse, token) - Lost(purse, owner, op, token)
  {
    hide TokenSum;
    match op {
      case LockOp(t, amount, purpose) =>
        SumCredited(purse.locked, Account(purpose, t), amount, token);
      case UnlockOp(t, purpose) =>
        if t == token {
          UnlockConserves(purse, owner, token, purpose);
        } else {
          var pool := Account(purpose, t);
          SumCredited(purse.locked, pool, -BalanceIn(purse.locked, pool), token);
        }
    }
  }

  function LostIn(purse: Purse, owner: string, ops: seq<PoolOp>, n: nat, token: Token): nat
    requires n <= |ops|
  {
    if n == 0 then 0
    else LostIn(purse, owner, ops, n - 1, token) + Lost(PoolRun(purse, owner, ops, n - 1), owner, ops[n - 1], token)
  }

  /**
   Over any run of locks and unlocks, of any tokens and pools, only accepted locks of negative amounts lose
   anything.
   */
  lemma {:induction false} PoolsConserve(purse: Purse, owner: string, ops: seq<PoolOp>, n: nat, token: Token)
    requires n <= |ops|
    ensures Held(PoolRun(purse, owner, ops, n), owner, token)
        == Held(purse, owner, token) - LostIn(purse, owner, ops, n, token)
    ensures Backed(PoolRun(purse, owner, ops, n), token) == Backed(purse, token) - LostIn(purse, owner, ops, n, token)
  {
    hide Held, Backed, AfterPoolOp, Lost;
    if n == 0 {
    } else {
      PoolsConserve(purse, owner, ops, n - 1, token);
      PoolOpConserves(PoolRun(purse, owner, ops, n - 1), owner, ops[n - 1], token);
    }
  }

  /** So a run conserves exactly when it accepts no lock of a negative amount of the token. */
  lemma {:induction false} PoolsConserveIff(purse: Purse, owner: string, ops: seq<PoolOp>, n: nat, token: Token)
    requires n <= |ops|
    ensures Held(PoolRun(purse, owner, ops, n), owner, token) == Held(purse, owner, token)
       <==> forall i :: 0 <= i < n ==> Lost(PoolRun(purse, owner, ops, i), owner, ops[i], token) == 0
  {
    hide Held, Lost, PoolRun;
    PoolsConserve(purse, owner, ops, n, token);
    NothingLostIff(purse, owner, ops, n, token);
  }

  lemma {:induction false} NothingLostIff(purse: Purse, owner: string, ops: seq<PoolOp>, n: nat, token: Token)
    requires n <= |ops|
    ensures LostIn(purse, owner, ops, n, token) == 0
       <==> forall i :: 0 <= i < n ==> Lost(PoolRun(purse, owner, ops, i), owner, ops[i], token) == 0
  {
    hide Lost, PoolRun;
    if n == 0 {
    } else {
      NothingLostIff(purse, owner, ops, n - 1, token);
    }
  }
}
