/** The wallet endpoints' store logic: a deposit credits the caller's
    wallet, creating it if needed, and a balance query reads it. */
module WalletController {
  import opened Common
  import opened Wallets

  /** The body of a successful deposit or balance response. */
  datatype BalanceView = BalanceView(balanceCents: int, currency: string)

  /** getBalance: the caller's balance and currency, or WalletNotFound. */
  function GetBalance(wallets: map<UserId, Wallet>, user: UserId): (r: Result<BalanceView>)
    requires WellFormed(wallets)
    ensures r.Err? <==> user !in wallets
    ensures r.Err? ==> r.error == WalletNotFound
    ensures r.Ok? ==> r.value.balanceCents == Balance(wallets, user) && r.value.currency == wallets[user].currency
  {
    match FindWallet(wallets, user)
    case None => Err(WalletNotFound)
    case Some(w) => Ok(BalanceView(w.balanceCents, w.currency))
  }

  /** deposit: the wallets afterwards and the response. The amount is taken
      as cents as it stands (no conversion), and an absent currency means
      "INR". */
  function DepositOutcome(wallets: map<UserId, Wallet>, user: UserId, amount: int, currency: Option<string>)
    : (r: (map<UserId, Wallet>, Result<BalanceView>))
    requires WellFormed(wallets)
    ensures WellFormed(r.0)
    ensures r.1.Err? <==> amount <= 0
    ensures r.1.Err? ==> r.1.error == AmountNotPositive && r.0 == wallets
    ensures r.1.Ok? ==> r.0 == Credited(wallets, user, amount, currency.GetOr(DefaultCurrency))
    ensures r.1.Ok? ==> r.1 == GetBalance(r.0, user)
  {
    if amount <= 0 then (wallets, Err(AmountNotPositive))
    else
      var after := Credited(wallets, user, amount, currency.GetOr(DefaultCurrency));
      (after, Ok(BalanceView(after[user].balanceCents, after[user].currency)))
  }

  /** The deposit handler: validate, then one atomic credit with upsert. */
  method Deposit(store: WalletStore, user: UserId, amount: int, currency: Option<string>) returns (r: Result<BalanceView>)
    requires store.Valid()
    modifies store
    ensures store.Valid()
    ensures (store.wallets, r) == DepositOutcome(old(store.wallets), user, amount, currency)
  {
    var amountCents := amount;
    if amountCents <= 0 {
      return Err(AmountNotPositive);
    }
    var w := store.CreditUpsert(user, amountCents, currency.GetOr(DefaultCurrency));
    r := Ok(BalanceView(w.balanceCents, w.currency));
  }

  /** A deposit changes the depositor's balance by exactly the amount (or
      not at all when it is refused), and no other user's wallet. */
  lemma DepositMovesOnlyDepositor(wallets: map<UserId, Wallet>, user: UserId, amount: int, currency: Option<string>, v: UserId)
    requires WellFormed(wallets)
    ensures var after := DepositOutcome(wallets, user, amount, currency).0;
      Balance(after, v) == Balance(wallets, v) + (if v == user && amount > 0 then amount else 0) &&
      (v != user ==> FindWallet(after, v) == FindWallet(wallets, v))
  {
  }

  /** A deposit on an existing wallet keeps that wallet's currency, whatever
      currency the request names. */
  lemma DepositKeepsCurrency(wallets: map<UserId, Wallet>, user: UserId, amount: int, currency: Option<string>)
    requires WellFormed(wallets) && user in wallets
    ensures var after := DepositOutcome(wallets, user, amount, currency).0;
      user in after && after[user].currency == wallets[user].currency
  {
  }

  /** The first deposit of a user creates the wallet: a balance query then
      reports exactly the deposited amount and the requested currency, "INR"
      when none was given. */
  lemma FirstDepositThenBalance(wallets: map<UserId, Wallet>, user: UserId, amount: int, currency: Option<string>)
    requires WellFormed(wallets) && user !in wallets && amount > 0
    ensures var (after, r) := DepositOutcome(wallets, user, amount, currency);
      r == Ok(BalanceView(amount, currency.GetOr(DefaultCurrency))) &&
      GetBalance(after, user) == r
  {
  }
}
