/** The wallet collection: one balance record per user, and the two
    atomic conditional updates the service runs against it (a credit
    with upsert, and a debit guarded on sufficient funds). */
module Wallets {
  import opened Common

  /** A wallet document. Balances are integer cents. */
  datatype Wallet = Wallet(user: UserId, balanceCents: int, currency: string)

  /** The collection keyed by owner. The key is the unique `user` field,
      so a user has at most one wallet; and no balance is below zero. */
  ghost predicate WellFormed(wallets: map<UserId, Wallet>) {
    forall u :: u in wallets ==> wallets[u].user == u && wallets[u].balanceCents >= 0
  }

  /** The balance of `u`, counting a missing wallet as zero (the schema's
      default balance). */
  function Balance(wallets: map<UserId, Wallet>, u: UserId): int {
    if u in wallets then wallets[u].balanceCents else 0
  }

  /** findOne({ user }): a stored wallet whose `user` field is `user`, or
      None exactly when no stored wallet has that owner. */
  function FindWallet(wallets: map<UserId, Wallet>, user: UserId): (r: Option<Wallet>)
    requires WellFormed(wallets)
    ensures r.Some? ==> r.value in wallets.Values && r.value.user == user
    ensures r.None? <==> forall v :: v in wallets ==> wallets[v].user != user
  {
    if user in wallets then Some(wallets[user]) else None
  }

  /** The collection after findOneAndUpdate({ user }, { $inc: { balanceCents },
      $setOnInsert: { currency } }, { upsert: true }): the user's balance
      grows by `amountCents`, a missing wallet is created with the given
      currency, an existing wallet keeps its own currency, and no other
      wallet changes. */
  function Credited(wallets: map<UserId, Wallet>, user: UserId, amountCents: int, currency: string): (r: map<UserId, Wallet>)
    requires WellFormed(wallets) && amountCents > 0
    ensures WellFormed(r)
    ensures r.Keys == wallets.Keys + {user}
    ensures Balance(r, user) == Balance(wallets, user) + amountCents
    ensures r[user].currency == if user in wallets then wallets[user].currency else currency
    ensures user !in wallets ==> r[user] == Wallet(user, amountCents, currency)
    ensures forall v :: v != user ==> FindWallet(r, v) == FindWallet(wallets, v)
  {
    var current := if user in wallets then wallets[user] else Wallet(user, 0, currency);
    wallets[user := current.(balanceCents := current.balanceCents + amountCents)]
  }

  /** Whether findOneAndUpdate({ user, balanceCents: { $gte: amountCents } }, ...)
      matches a wallet. */
  predicate CanDebit(wallets: map<UserId, Wallet>, user: UserId, amountCents: int) {
    user in wallets && wallets[user].balanceCents >= amountCents
  }

  /** The collection after findOneAndUpdate({ user, balanceCents: { $gte:
      amountCents } }, { $inc: { balanceCents: -amountCents } }): when the
      filter matches, that balance drops by exactly `amountCents` and stays
      non-negative; otherwise nothing changes. No other wallet changes. */
  function Debited(wallets: map<UserId, Wallet>, user: UserId, amountCents: int): (r: map<UserId, Wallet>)
    requires WellFormed(wallets)
    ensures WellFormed(r)
    ensures r.Keys == wallets.Keys
    ensures Balance(r, user) == if CanDebit(wallets, user, amountCents) then Balance(wallets, user) - amountCents else Balance(wallets, user)
    ensures !CanDebit(wallets, user, amountCents) ==> r == wallets
    ensures forall v :: v in wallets ==> r[v].currency == wallets[v].currency
    ensures forall v :: v != user ==> FindWallet(r, v) == FindWallet(wallets, v)
  {
    if CanDebit(wallets, user, amountCents) then
      wallets[user := wallets[user].(balanceCents := wallets[user].balanceCents - amountCents)]
    else
      wallets
  }

  /** The wallet collection as a mutable store. Each method is one atomic
      call of the document store. */
  class WalletStore {
    var wallets: map<UserId, Wallet>

    ghost predicate Valid()
      reads this
    {
      WellFormed(wallets)
    }

    constructor ()
      ensures Valid() && wallets == map[]
    {
      wallets := map[];
    }

    /** Credit with upsert; returns the updated document (`new: true`). */
    method CreditUpsert(user: UserId, amountCents: int, currency: string) returns (w: Wallet)
      requires Valid() && amountCents > 0
      modifies this
      ensures Valid()
      ensures wallets == Credited(old(wallets), user, amountCents, currency)
      ensures user in wallets && w == wallets[user]
    {
      var current := if user in wallets then wallets[user] else Wallet(user, 0, currency);
      w := current.(balanceCents := current.balanceCents + amountCents);
      wallets := wallets[user := w];
    }

    /** Conditional debit in one step; returns the updated document, or
        None when no wallet matched the filter. */
    method DebitIfSufficient(user: UserId, amountCents: int) returns (r: Option<Wallet>)
      requires Valid()
      modifies this
      ensures Valid()
      ensures r.Some? <==> CanDebit(old(wallets), user, amountCents)
      ensures wallets == Debited(old(wallets), user, amountCents)
      ensures r.Some? ==> r.value == wallets[user]
    {
      if user in wallets && wallets[user].balanceCents >= amountCents {
        var w := wallets[user].(balanceCents := wallets[user].balanceCents - amountCents);
        wallets := wallets[user := w];
        r := Some(w);
      } else {
        r := None;
      }
    }
  }
}
