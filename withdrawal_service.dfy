/** The withdrawal orchestrator: amount check, idempotent lookup, a
    pending record, the guarded move to processing, the one-step
    conditional debit, and the final success or failed status. */
module WithdrawalService {
  import opened Common
  import opened Wallets
  import opened Withdrawals

  /** The arguments of createWithdrawal, with the amount already in cents.
      A currency or key of None is an absent one. */
  datatype WithdrawalRequest = WithdrawalRequest(
    user: UserId,
    amountCents: int,
    currency: Option<string>,
    destination: string,
    idempotencyKey: Option<string>)

  /** The two collections the orchestrator works on. */
  datatype State = State(wallets: map<UserId, Wallet>, records: seq<Withdrawal>)

  ghost predicate Consistent(s: State) {
    Wallets.WellFormed(s.wallets) && Withdrawals.WellFormed(s.records)
  }

  /** The service tests the key for truthiness: an absent key and the empty
      string both skip the idempotency lookup. */
  predicate Truthy(key: Option<string>) {
    key.Some? && key.value != ""
  }

  /** The record a retry with this request's key would be answered with. */
  function Replayed(s: State, req: WithdrawalRequest): Option<Withdrawal> {
    if Truthy(req.idempotencyKey) then FindByKey(s.records, req.user, req.idempotencyKey.value) else None
  }

  /** Whether a call stored a new record: the collection grew by exactly one
      document appended after the old ones. */
  predicate AppendedOne(before: seq<Withdrawal>, after: seq<Withdrawal>) {
    |after| == |before| + 1 && after[..|before|] == before
  }

  /** createWithdrawal as one transition of the two collections, with the
      record it returns or the error it raises. */
  function WithdrawOutcome(s: State, req: WithdrawalRequest): (r: (State, Result<Withdrawal>))
    requires Consistent(s)
    ensures Consistent(r.0)
  {
    if req.amountCents <= 0 then (s, Err(AmountNotPositive))
    else if Replayed(s, req).Some? then (s, Ok(Replayed(s, req).value))
    else
      var created := Created(s.records, req.user, req.amountCents, req.currency, req.destination,
                             Some(Pending), req.idempotencyKey);
      if created.Err? then (s, Err(created.error))
      else
        var p := created.value;
        assert (s.records + [p])[..|s.records|] == s.records;
        if CanDebit(s.wallets, req.user, req.amountCents) then
          var w := p.(status := Success);
          assert Withdrawals.WellFormed(s.records + [w]) by {
            assert forall i :: 0 <= i < |s.records| ==> (s.records + [w])[i] == (s.records + [p])[i];
          }
          (State(Debited(s.wallets, req.user, req.amountCents), s.records + [w]), Ok(w))
        else
          var w := p.(status := Failed, failureReason := Some(InsufficientBalanceMessage));
          assert Withdrawals.WellFormed(s.records + [w]) by {
            assert forall i :: 0 <= i < |s.records| ==> (s.records + [w])[i] == (s.records + [p])[i];
          }
          (State(s.wallets, s.records + [w]), Err(InsufficientBalance))
  }

  /** A non-positive amount is refused before any collection is touched. */
  lemma NonPositiveAmountRejected(s: State, req: WithdrawalRequest)
    requires Consistent(s) && req.amountCents <= 0
    ensures WithdrawOutcome(s, req) == (s, Err(AmountNotPositive))
  {
  }

  /** A call whose key the caller has already used returns the stored
      record as it is, whatever its status, amount or destination, and
      changes nothing. */
  lemma ReplayReturnsStoredRecord(s: State, req: WithdrawalRequest)
    requires Consistent(s) && req.amountCents > 0 && Replayed(s, req).Some?
    ensures WithdrawOutcome(s, req) == (s, Ok(Replayed(s, req).value))
    ensures Replayed(s, req).value in s.records
    ensures Replayed(s, req).value.user == req.user
    ensures Replayed(s, req).value.idempotencyKey == req.idempotencyKey
  {
  }

  /** Every other call either is refused by the create call, changing
      nothing, or appends exactly one record carrying the request's fields,
      already in a terminal status, and leaves the older records as they
      were. */
  lemma OneRecordPerCall(s: State, req: WithdrawalRequest)
    requires Consistent(s) && req.amountCents > 0 && Replayed(s, req).None?
    ensures var (t, r) := WithdrawOutcome(s, req);
      (t == s && r.Err? && (r.error == ValidationFailed || r.error == DuplicateKey)) ||
      (AppendedOne(s.records, t.records) &&
       var w := t.records[|s.records|];
       w.id == |s.records| && w.user == req.user && w.amountCents == req.amountCents &&
       w.currency == req.currency.GetOr(DefaultCurrency) && w.destination == req.destination &&
       w.idempotencyKey == req.idempotencyKey && IsTerminal(w.status))
  {
  }

  /** A stored call ends in success exactly when the caller's wallet exists
      and covers the amount; the record returned is then the final record,
      and the caller's balance has dropped by exactly the amount. */
  lemma SuccessWhenFundsSuffice(s: State, req: WithdrawalRequest)
    requires Consistent(s) && req.amountCents > 0 && Replayed(s, req).None?
    requires CanDebit(s.wallets, req.user, req.amountCents)
    requires PassesValidators(req.amountCents, req.currency, req.destination)
    requires !KeyTaken(s.records, req.user, req.idempotencyKey)
    ensures var (t, r) := WithdrawOutcome(s, req);
      AppendedOne(s.records, t.records) &&
      t.records[|s.records|].status == Success && t.records[|s.records|].failureReason == None &&
      r == Ok(t.records[|s.records|]) &&
      Balance(t.wallets, req.user) == Balance(s.wallets, req.user) - req.amountCents
  {
  }

  /** Without a wallet or without enough funds the new record ends failed
      with the insufficient-balance reason, that error is raised, and no
      balance changes. */
  lemma FailureLeavesBalances(s: State, req: WithdrawalRequest)
    requires Consistent(s) && req.amountCents > 0 && Replayed(s, req).None?
    requires !CanDebit(s.wallets, req.user, req.amountCents)
    requires PassesValidators(req.amountCents, req.currency, req.destination)
    requires !KeyTaken(s.records, req.user, req.idempotencyKey)
    ensures var (t, r) := WithdrawOutcome(s, req);
      AppendedOne(s.records, t.records) &&
      t.records[|s.records|].status == Failed &&
      t.records[|s.records|].failureReason == Some(InsufficientBalanceMessage) &&
      r == Err(InsufficientBalance) && t.wallets == s.wallets
  {
  }

  /** Only the caller's balance can move, and only down by the amount of a
      withdrawal that succeeded. */
  lemma OnlyCallerDebited(s: State, req: WithdrawalRequest, u: UserId)
    requires Consistent(s)
    ensures var (t, r) := WithdrawOutcome(s, req);
      Balance(t.wallets, u) ==
        Balance(s.wallets, u) - (if u == req.user && r.Ok? && t != s then req.amountCents else 0)
  {
  }

  /** The empty key: it skips the lookup but is stored and indexed, so a
      second such call by the same user is refused by the unique index
      instead of being answered with the first record. */
  lemma EmptyKeyRetryIsDuplicate(s: State, req: WithdrawalRequest)
    requires Consistent(s) && req.amountCents > 0 && req.idempotencyKey == Some("")
    requires PassesValidators(req.amountCents, req.currency, req.destination)
    requires exists i :: 0 <= i < |s.records| && HasKey(s.records[i], req.user, "")
    ensures WithdrawOutcome(s, req) == (s, Err(DuplicateKey))
  {
  }

  /** createWithdrawal, step by step against the two stores. The ghost
      `trace` lists the status the new record holds after each store call
      that touches it. */
  method CreateWithdrawal(wallets: WalletStore, store: WithdrawalStore, req: WithdrawalRequest)
    returns (r: Result<Withdrawal>, ghost trace: seq<Status>)
    requires wallets.Valid() && store.Valid()
    modifies wallets, store
    ensures wallets.Valid() && store.Valid()
    ensures (State(wallets.wallets, store.records), r)
         == WithdrawOutcome(State(old(wallets.wallets), old(store.records)), req)
    ensures |store.records| == |old(store.records)| ==> trace == []
    ensures |store.records| > |old(store.records)| ==>
      IsLifecycle(trace) && |trace| == 3 && trace[2] == store.records[|old(store.records)|].status
  {
    ghost var s := State(wallets.wallets, store.records);
    trace := [];
    if req.amountCents <= 0 {
      return Err(AmountNotPositive), trace;
    }
    if Truthy(req.idempotencyKey) {
      var existing := FindByKey(store.records, req.user, req.idempotencyKey.value);
      if existing.Some? {
        return Ok(existing.value), trace;
      }
    }
    // 1) the pending record
    var created := store.Create(req.user, req.amountCents, req.currency, req.destination,
                                Some(Pending), req.idempotencyKey);
    if created.Err? {
      return Err(created.error), trace;
    }
    var id := created.value.id;
    trace := trace + [store.records[id].status];
    // 2) pending -> processing, guarded on the current status
    var _ := store.UpdateStatusWhere(id, Pending, Processing);
    trace := trace + [store.records[id].status];
    // 3) the conditional debit
    var debited := wallets.DebitIfSufficient(req.user, req.amountCents);
    if debited.None? {
      // 4) failed, with the reason, and the error raised
      var _ := store.Update(id, Failed, Some(InsufficientBalanceMessage));
      trace := trace + [store.records[id].status];
      assert store.records == s.records + [created.value.(status := Failed, failureReason := Some(InsufficientBalanceMessage))];
      return Err(InsufficientBalance), trace;
    }
    // 5) success, and the record re-read in its final state
    var _ := store.Update(id, Success, None);
    trace := trace + [store.records[id].status];
    assert store.records == s.records + [created.value.(status := Success)];
    var final := FindById(store.records, id);
    r := Ok(final.value);
  }
}
