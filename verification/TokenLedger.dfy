/**
 The token ledger (aether-economy/token.js): balances, supply and burn totals updated in place, beside an
 append-only transaction log. Timestamps and burn receipts are not modelled; amounts are exact integers.
 */
module TokenLedger {
  import opened Wrappers

  datatype LedgerError = MintNotPositive | UnauthorizedMint | Insufficient(have: int, need: int) | NotTransferable

  datatype Token = ASE | TOC_D | TOC_S

  /** One amount for each token. */
  datatype PerToken = PerToken(ase: int, tocD: int, tocS: int) {
    function At(token: Token): int {
      match token
      case ASE => ase
      case TOC_D => tocD
      case TOC_S => tocS
    }

    function Plus(token: Token, amount: int): (r: PerToken)
      ensures forall t :: r.At(t) == At(t) + if t == token then amount else 0
    {
      match token
      case ASE => this.(ase := ase + amount)
      case TOC_D => this.(tocD := tocD + amount)
      case TOC_S => this.(tocS := tocS + amount)
    }
  }

  const ZERO := PerToken(0, 0, 0)

  datatype Account = Account(holder: string, token: Token)

  /** The dictionary key under which a balance is kept. */
  function Key(account: Account): string {
    account.holder + ":" + match account.token
                           case ASE => "ase"
                           case TOC_D => "toc_d"
                           case TOC_S => "toc_s"
  }

  /** Whatever a holder is called, no two accounts share a key. */
  lemma KeyIsInjective(a: Account, b: Account)
    requires Key(a) == Key(b)
    ensures a == b
  {
    var s := Key(a);
    assert s[|s| - 1] == Key(b)[|s| - 1];
    assert a.token == b.token;
    assert a.holder == s[..|a.holder|] && b.holder == s[..|b.holder|];
  }

  datatype Transaction =
    | MintTx(holder: string, token: Token, amount: int, source: string)
    | BurnTx(holder: string, token: Token, amount: int, reason: string)
    | TransferTx(from: string, to: string, token: Token, amount: int)

  datatype Books = Books(balances: map<Account, int>, totalSupply: PerToken, burnedTotal: PerToken)

  const EMPTY := Books(map[], ZERO, ZERO)

  function BalanceIn(balances: map<Account, int>, account: Account): int {
    if account in balances then balances[account] else 0
  }

  function Credited(balances: map<Account, int>, account: Account, amount: int): map<Account, int> {
    balances[account := BalanceIn(balances, account) + amount]
  }

  /** What one log record means for the books. */
  function Posted(books: Books, tx: Transaction): Books {
    match tx
    case MintTx(holder, token, amount, _) =>
      Books(Credited(books.balances, Account(holder, token), amount), books.totalSupply.Plus(token, amount),
          books.burnedTotal)
    case BurnTx(holder, token, amount, _) =>
      Books(Credited(books.balances, Account(holder, token), -amount), books.totalSupply.Plus(token, -amount),
            books.burnedTotal.Plus(token, amount))
    case TransferTx(_, to, token, amount) =>
      Books(Credited(books.balances, Account(to, token), amount), books.totalSupply.Plus(token, amount),
          books.burnedTotal)
  }

  function Replay(log: seq<Transaction>, n: nat): Books
    requires n <= |log|
  {
    if n == 0 then EMPTY else Posted(Replay(log, n - 1), log[n - 1])
  }

  const AUTHORIZED_SOURCES := ["vm_birth", "vm_conversion"]

  predicate Transferable(token: Token) {
    token == TOC_S
  }

  // ---- What each operation writes to the log, or why it refuses ----

  function MintLog(amount: int, holder: string, token: Token, source: string): Result<seq<Transaction>, LedgerError> {
    if amount <= 0 then Err(MintNotPositive)
    else if source !in AUTHORIZED_SOURCES then Err(UnauthorizedMint)
    else Ok([MintTx(holder, token, amount, source)])
  }

  function BurnLog(balance: int, holder: string, token: Token, amount: int,
                   reason: string): Result<seq<Transaction>, LedgerError>
  {
    if amount <= 0 then Ok([])
    else if balance < amount then Err(Insufficient(balance, amount))
    else Ok([BurnTx(holder, token, amount, reason)])
  }

  function TransferLog(balance: int, from: string, to: string, token: Token,
                       amount: int): Result<seq<Transaction>, LedgerError>
  {
    if !Transferable(token) then Err(NotTransferable)
    else
      var burnt := BurnLog(balance, from, token, amount, "transfer");
      if burnt.Err? then burnt else Ok(burnt.value + [TransferTx(from, to, token, amount)])
  }

  class TokenLedger {
    var balances: map<Account, int>
    var totalSupply: PerToken
    var burnedTotal: PerToken
    var transactions: seq<Transaction>

    constructor ()
      ensures Valid() && BooksNow() == EMPTY && transactions == []
    {
      balances, totalSupply, burnedTotal, transactions := map[], ZERO, ZERO, [];
    }

    function BooksNow(): Books
      reads this
    {
      Books(balances, totalSupply, burnedTotal)
    }

    function Balance(holder: string, token: Token): int
      reads this
    {
      BalanceIn(balances, Account(holder, token))
    }

    /** The ledger's books are what its log says they are. */
    ghost predicate Valid()
      reads this
    {
      BooksNow() == Replay(transactions, |transactions|)
    }

    method Mint(holder: string, token: Token, amount: int, source: string) returns (r: Result<(), LedgerError>)
      requires Valid()
      modifies this
      ensures Valid()
      ensures
        var log := MintLog(amount, holder, token, source);
        if log.Ok? then r == Ok(()) && transactions == old(transactions) + log.value
        else r == Err(log.error) && transactions == old(transactions)
    {
      hide Replay;
      if amount <= 0 {
        return Err(MintNotPositive);
      }
      if source !in AUTHORIZED_SOURCES {
        return Err(UnauthorizedMint);
      }
      var account := Account(holder, token);
      balances := balances[account := BalanceIn(balances, account) + amount];
      totalSupply := totalSupply.Plus(token, amount);
      ghost var log := transactions;
      transactions := transactions + [MintTx(holder, token, amount, source)];
      LongerLog(log, MintTx(holder, token, amount, source));
      r := Ok(());
    }

    method Burn(holder: string, token: Token, amount: int, reason: string)
      returns (r: Result<Option<Transaction>, LedgerError>)
      requires Valid()
      modifies this
      ensures Valid()
      ensures
        var log := BurnLog(old(Balance(holder, token)), holder, token, amount, reason);
        if log.Ok? then
          && transactions == old(transactions) + log.value
          && r == Ok(if log.value == [] then None else Some(log.value[0]))
        else r == Err(log.error) && transactions == old(transactions)
    {
      hide Replay;
      if amount <= 0 {
        return Ok(None);
      }
      var account := Account(holder, token);
      var prev := BalanceIn(balances, account);
      if prev < amount {
        return Err(Insufficient(prev, amount));
      }
      balances := balances[account := prev - amount];
      totalSupply := totalSupply.Plus(token, -amount);
      burnedTotal := burnedTotal.Plus(token, amount);
      var tx := BurnTx(holder, token, amount, reason);
      ghost var log := transactions;
      transactions := transactions + [tx];
      LongerLog(log, tx);
      r := Ok(Some(tx));
    }

    method Transfer(from: string, to: string, token: Token, amount: int) returns (r: Result<(), LedgerError>)
      requires Valid()
      modifies this
      ensures Valid()
      ensures
        var log := TransferLog(old(Balance(from, token)), from, to, token, amount);
        if log.Ok? then r == Ok(()) && transactions == old(transactions) + log.value
        else r == Err(log.error) && transactions == old(transactions)
    {
      hide Replay, BurnLog;
      if !Transferable(token) {
        return Err(NotTransferable);
      }
      var burnt := Burn(from, token, amount, "transfer");
      if burnt.Err? {
        return Err(burnt.error);
      }
      var account := Account(to, token);
      balances := balances[account := BalanceIn(balances, account) + amount];
      totalSupply := totalSupply.Plus(token, amount);
      var tx := TransferTx(from, to, token, amount);
      ghost var log := transactions;
      transactions := transactions + [tx];
      LongerLog(log, tx);
      r := Ok(());
    }
  }

  lemma {:induction false} SamePrefix(log: seq<Transaction>, longer: seq<Transaction>, n: nat)
    requires n <= |log| <= |longer| && log == longer[..|log|]
    ensures Replay(log, n) == Replay(longer, n)
  {
    if n == 0 {
    } else {
      SamePrefix(log, longer, n - 1);
    }
  }

  lemma LongerLog(log: seq<Transaction>, tx: Transaction)
    ensures Replay(log + [tx], |log| + 1) == Posted(Replay(log, |log|), tx)
  {
    SamePrefix(log, log + [tx], |log|);
  }
}
