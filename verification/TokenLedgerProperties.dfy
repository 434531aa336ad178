/** What the ledger conserves (aether-economy/token.js), for every log it can hold and every run of operations. */
module TokenLedgerProperties {
  import opened TokenLedger
  import opened Wrappers

  // ---- Sums over accounts ----

  ghost function Share(balances: map<Account, int>, token: Token, account: Account): int {
    if account.token == token then BalanceIn(balances, account) else 0
  }

  ghost function SumOver(accounts: set<Account>, balances: map<Account, int>, token: Token): int {
    if accounts == {} then 0
    else
      var a :| a in accounts;
      Share(balances, token, a) + SumOver(accounts - {a}, balances, token)
  }

  /** All the balances of one token together. */
  ghost function TokenSum(balances: map<Account, int>, token: Token): int {
    SumOver(balances.Keys, balances, token)
  }

  /** Any account can be taken out first. */
  lemma {:induction false} SumWithout(accounts: set<Account>, balances: map<Account, int>, token: Token, x: Account)
    requires x in accounts
    ensures SumOver(accounts, balances, token) == Share(balances, token, x) + SumOver(accounts - {x}, balances, token)
  {
    var a :| a in accounts
      && SumOver(accounts, balances, token) == Share(balances, token, a) + SumOver(accounts - {a}, balances, token);
    if a != x {
      SumWithout(accounts - {a}, balances, token, x);
      SumWithout(accounts - {x}, balances, token, a);
      assert accounts - {a} - {x} == accounts - {x} - {a};
    }
  }

  lemma {:induction false} SumAgrees(accounts: set<Account>, b: map<Account, int>, c: map<Account, int>, token: Token)
    requires forall a :: a in accounts ==> BalanceIn(b, a) == BalanceIn(c, a)
    ensures SumOver(accounts, b, token) == SumOver(accounts, c, token)
  {
    if accounts != {} {
      var a :| a in accounts;
      SumWithout(accounts, b, token, a);
      SumWithout(accounts, c, token, a);
      SumAgrees(accounts - {a}, b, c, token);
    }
  }

  lemma SumCredited(balances: map<Account, int>, account: Account, amount: int, token: Token)
    ensures TokenSum(Credited(balances, account, amount), token)
         == TokenSum(balances, token) + if account.token == token then amount else 0
  {
    var credited := Credited(balances, account, amount);
    var others := balances.Keys - {account};
    assert credited.Keys - {account} == others;
    SumWithout(credited.Keys, credited, token, account);
    SumAgrees(others, balances, credited, token);
    if account in balances {
      SumWithout(balances.Keys, balances, token, account);
    } else {
      assert others == balances.Keys;
    }
  }

  // ---- What any log conserves ----

  /** For each token the balances add up to the total supply. */
  lemma {:induction false} BalancesSumToSupply(log: seq<Transaction>, n: nat, token: Token)
    requires n <= |log|
    ensures TokenSum(Replay(log, n).balances, token) == Replay(log, n).totalSupply.At(token)
  {
    hide TokenSum, Credited;
    if n == 0 {
      NoBalances(token);
    } else {
      BalancesSumToSupply(log, n - 1, token);
      var books := Replay(log, n - 1);
      match log[n - 1]
      case MintTx(holder, t, amount, _) => SumCredited(books.balances, Account(holder, t), amount, token);
      case BurnTx(holder, t, amount, _) => SumCredited(books.balances, Account(holder, t), -amount, token);
      case TransferTx(_, to, t, amount) => SumCredited(books.balances, Account(to, t), amount, token);
    }
  }

  lemma NoBalances(token: Token)
    ensures TokenSum(map[], token) == 0
  {
  }

  function Minted(log: seq<Transaction>, n: nat, token: Token): int
    requires n <= |log|
  {
    if n == 0 then 0
    else Minted(log, n - 1, token) + if log[n - 1].MintTx? && log[n - 1].token == token then log[n - 1].amount else 0
  }

  function Burned(log: seq<Transaction>, n: nat, token: Token): int
    requires n <= |log|
  {
    if n == 0 then 0
    else Burned(log, n - 1, token) + if log[n - 1].BurnTx? && log[n - 1].token == token then log[n - 1].amount else 0
  }

  function Transferred(log: seq<Transaction>, n: nat, token: Token): int
    requires n <= |log|
  {
    if n == 0 then 0
    else
      Transferred(log, n - 1, token)
      + if log[n - 1].TransferTx? && log[n - 1].token == token then log[n - 1].amount else 0
  }

  /**
   What was minted and transferred is either still in supply or burned, and the burn total is what was logged as
   burned.
   */
  lemma {:induction false} MintedIsHeldOrBurned(log: seq<Transaction>, n: nat, token: Token)
    requires n <= |log|
    ensures
      var books := Replay(log, n);
      && Minted(log, n, token) + Transferred(log, n, token) == books.totalSupply.At(token) + books.burnedTotal.At(token)
      && books.burnedTotal.At(token) == Burned(log, n, token)
  {
    hide Credited;
    if n == 0 {
    } else {
      MintedIsHeldOrBurned(log, n - 1, token);
    }
  }

  /** What one record adds to an account. */
  function Effect(tx: Transaction, account: Account): int {
    if tx.token != account.token then 0
    else match tx
      case MintTx(holder, _, amount, _) => if holder == account.holder then amount else 0
      case BurnTx(holder, _, amount, _) => if holder == account.holder then -amount else 0
      case TransferTx(_, to, _, amount) => if to == account.holder then amount else 0
  }

  function Net(log: seq<Transaction>, n: nat, account: Account): int
    requires n <= |log|
  {
    if n == 0 then 0 else Net(log, n - 1, account) + Effect(log[n - 1], account)
  }

  /** Each balance is the net of the records that name its account. */
  lemma {:induction false} BalanceIsNet(log: seq<Transaction>, n: nat, account: Account)
    requires n <= |log|
    ensures BalanceIn(Replay(log, n).balances, account) == Net(log, n, account)
  {
    if n == 0 {
    } else {
      BalanceIsNet(log, n - 1, account);
    }
  }

  // ---- Runs of operations ----

  datatype Op =
    | Mint(holder: string, token: Token, amount: int, source: string)
    | Burn(holder: string, token: Token, amount: int, reason: string)
    | Transfer(from: string, to: string, token: Token, amount: int)

  /** What an operation writes to the log; nothing when it is refused. */
  function Written(books: Books, op: Op): seq<Transaction> {
    var log := match op
      case Mint(holder, token, amount, source) => MintLog(amount, holder, token, source)
      case Burn(holder, token, amount, reason) =>
        BurnLog(BalanceIn(books.balances, Account(holder, token)), holder, token, amount, reason)
      case Transfer(from, to, token, amount) =>
        TransferLog(BalanceIn(books.balances, Account(from, token)), from, to, token, amount);
    if log.Ok? then log.value else []
  }

  function AfterOp(books: Books, op: Op): Books {
    var log := Written(books, op);
    if |log| == 0 then books
    else if |log| == 1 then Posted(books, log[0])
    else Posted(Posted(books, log[0]), log[1])
  }

  function Log(ops: seq<Op>, n: nat): seq<Transaction>
    requires n <= |ops|
  {
    if n == 0 then []
    else
      var log := Log(ops, n - 1);
      log + Written(Replay(log, |log|), ops[n - 1])
  }

  function Run(ops: seq<Op>, n: nat): Books
    requires n <= |ops|
  {
    if n == 0 then EMPTY else AfterOp(Run(ops, n - 1), ops[n - 1])
  }

  /** Replaying the log from empty reproduces every balance, the supplies and the burn totals, for all amounts. */
  lemma {:induction false} ReplayReproduces(ops: seq<Op>, n: nat)
    requires n <= |ops|
    ensures Replay(Log(ops, n), |Log(ops, n)|) == Run(ops, n)
  {
    hide Posted, Written;
    if n == 0 {
    } else {
      ReplayReproduces(ops, n - 1);
      var log, more := Log(ops, n - 1), Written(Run(ops, n - 1), ops[n - 1]);
      AtMostTwo(Run(ops, n - 1), ops[n - 1]);
      if |more| == 0 {
        assert log + more == log;
      } else {
        LongerLog(log, more[0]);
        if |more| == 1 {
          assert log + more == log + [more[0]];
        } else {
          LongerLog(log + [more[0]], more[1]);
          assert log + more == (log + [more[0]]) + [more[1]];
        }
      }
    }
  }

  lemma AtMostTwo(books: Books, op: Op)
    ensures |Written(books, op)| <= 2
  {
  }

  ghost predicate NoneNegative(books: Books) {
    forall a :: a in books.balances ==> books.balances[a] >= 0
  }

  /** A transfer of a negative amount the recipient cannot cover. */
  predicate Overdraws(books: Books, op: Op) {
    op.Transfer? && Transferable(op.token) && op.amount < 0
        && BalanceIn(books.balances, Account(op.to, op.token)) + op.amount < 0
  }

  /** No balance can go negative but through a negative transfer, which draws on the recipient unchecked. */
  lemma StaysNonNegativeIff(books: Books, op: Op)
    requires NoneNegative(books)
    ensures NoneNegative(AfterOp(books, op)) <==> !Overdraws(books, op)
  {
    if Overdraws(books, op) {
      assert AfterOp(books, op).balances[Account(op.to, op.token)] < 0;
    }
  }

  lemma {:induction false} RunsStayNonNegative(ops: seq<Op>, n: nat)
    requires n <= |ops|
    requires forall i :: 0 <= i < n && ops[i].Transfer? ==> ops[i].amount >= 0
    ensures NoneNegative(Run(ops, n))
  {
    hide AfterOp;
    if n == 0 {
    } else {
      RunsStayNonNegative(ops, n - 1);
      StaysNonNegativeIff(Run(ops, n - 1), ops[n - 1]);
    }
  }

  /**
   A refused operation leaves the books alone; an accepted transfer moves the amount and keeps the supply, unless
   it is negative.
   */
  lemma TransferMoves(books: Books, op: Op)
    requires op.Transfer?
    requires Transferable(op.token) && op.amount <= BalanceIn(books.balances, Account(op.from, op.token))
    ensures
      var after, from, to := AfterOp(books, op), Account(op.from, op.token), Account(op.to, op.token);
      && (op.amount >= 0 ==>
           && after.totalSupply == books.totalSupply
           && after.burnedTotal == books.burnedTotal.Plus(op.token, op.amount)
           && (from == to ==> BalanceIn(after.balances, to) == BalanceIn(books.balances, to))
           && (from != to ==>
                && BalanceIn(after.balances, from) == BalanceIn(books.balances, from) - op.amount
                && BalanceIn(after.balances, to) == BalanceIn(books.balances, to) + op.amount))
      && (op.amount < 0 ==>
           && after.totalSupply == books.totalSupply.Plus(op.token, op.amount)
           && after.burnedTotal == books.burnedTotal
           && BalanceIn(after.balances, to) == BalanceIn(books.balances, to) + op.amount)
      && forall a :: a != from && a != to ==> BalanceIn(after.balances, a) == BalanceIn(books.balances, a)
  {
  }

  // ---- What is in the log ----

  /** Only the virtual machine mints, only positive amounts are minted or burnt, and only Synapse changes hands. */
  ghost predicate Lawful(log: seq<Transaction>, i: nat)
    requires i < |log|
  {
    match log[i]
    case MintTx(_, _, amount, source) => amount > 0 && (source == "vm_birth" || source == "vm_conversion")
    case BurnTx(_, _, amount, _) => amount > 0
    case TransferTx(from, _, token, amount) =>
      token == TOC_S && (amount > 0 ==> i > 0 && log[i - 1] == BurnTx(from, token, amount, "transfer"))
  }

  /** Over any run every record is lawful, and a transfer of a positive amount follows the burn that pays for it. */
  lemma {:induction false} LogIsLawful(ops: seq<Op>, n: nat, i: nat)
    requires n <= |ops| && i < |Log(ops, n)|
    ensures Lawful(Log(ops, n), i)
  {
    hide Written, Replay;
    var log := Log(ops, n - 1);
    if i < |log| {
      LogIsLawful(ops, n - 1, i);
      assert Log(ops, n)[i] == log[i] && (i > 0 ==> Log(ops, n)[i - 1] == log[i - 1]);
    } else {
      LoggedIs(Replay(log, |log|), ops[n - 1]);
    }
  }

  /** What each operation adds to the log, by the amounts and the balance it finds. */
  lemma LoggedIs(books: Books, op: Op)
    ensures Written(books, op) ==
      match op
      case Mint(holder, token, amount, source) =>
        if amount > 0 && (source == "vm_birth" || source == "vm_conversion")
        then [MintTx(holder, token, amount, source)] else []
      case Burn(holder, token, amount, reason) =>
        if 0 < amount <= BalanceIn(books.balances, Account(holder, token))
        then [BurnTx(holder, token, amount, reason)] else []
      case Transfer(from, to, token, amount) =>
        if token != TOC_S || (0 < amount && BalanceIn(books.balances, Account(from, token)) < amount) then []
        else
          (if 0 < amount then [BurnTx(from, token, amount, "transfer")] else [])
          + [TransferTx(from, to, token, amount)]
  {
  }
}
