/** The service as a whole, as a sequence of deposits and withdrawals
    against one database, one call at a time. This module proves the
    goals the withdrawal service states for itself: no balance goes below
    zero, money leaves only through successful withdrawals, withdrawals
    never succeed for more than was deposited (no double spending), and a
    retry with a used key is answered with the stored record and moves no
    money. */
module Ledger {
  import opened Common
  import opened Wallets
  import opened Withdrawals
  import opened WalletController
  import opened WithdrawalService

  /** The empty database. */
  const Empty: State := State(map[], [])

  /** One request the service handles. */
  datatype Op =
    | DepositOp(user: UserId, amount: int, currency: Option<string>)
    | WithdrawOp(req: WithdrawalRequest)

  /** The database after one request. */
  function Apply(s: State, op: Op): State
    requires Consistent(s)
  {
    match op
    case DepositOp(u, a, c) => State(DepositOutcome(s.wallets, u, a, c).0, s.records)
    case WithdrawOp(req) => WithdrawOutcome(s, req).0
  }

  /** The database after the requests in `ops`, in order; it stays
      consistent all along (unique wallet per user, balances at or above
      zero, valid records, unique keys). */
  function Run(s: State, ops: seq<Op>): (t: State)
    requires Consistent(s)
    ensures Consistent(t)
    decreases |ops|
  {
    if ops == [] then s
    else
      var before := Run(s, ops[..|ops| - 1]);
      Apply(before, ops[|ops| - 1])
  }

  /** Amount `w` takes from `u`'s balance: its amount when it is `u`'s and
      succeeded. */
  function Settled(w: Withdrawal, u: UserId): int {
    if w.user == u && w.status == Success then w.amountCents else 0
  }

  /** The total of `u`'s successful withdrawals. */
  function SuccessTotal(records: seq<Withdrawal>, u: UserId): int
    decreases |records|
  {
    if records == [] then 0
    else SuccessTotal(records[..|records| - 1], u) + Settled(records[|records| - 1], u)
  }

  /** The amount a request credits to `u`: a deposit of a positive amount
      by `u`. */
  function Credit(op: Op, u: UserId): int {
    if op.DepositOp? && op.user == u && op.amount > 0 then op.amount else 0
  }

  /** The total `ops` credits to `u`. */
  function Deposited(ops: seq<Op>, u: UserId): int
    decreases |ops|
  {
    if ops == [] then 0 else Deposited(ops[..|ops| - 1], u) + Credit(ops[|ops| - 1], u)
  }

  lemma SuccessTotalAppend(records: seq<Withdrawal>, w: Withdrawal, u: UserId)
    ensures SuccessTotal(records + [w], u) == SuccessTotal(records, u) + Settled(w, u)
  {
    assert (records + [w])[..|records|] == records;
  }

  /** One request keeps balance plus successful withdrawals equal to what
      it was plus what the request credits: a withdrawal moves money from
      the balance to its successful record, a deposit adds to the balance. */
  lemma StepConserves(s: State, op: Op, u: UserId)
    requires Consistent(s)
    ensures Balance(Apply(s, op).wallets, u) + SuccessTotal(Apply(s, op).records, u)
         == Balance(s.wallets, u) + SuccessTotal(s.records, u) + Credit(op, u)
  {
    match op
    case DepositOp(v, a, c) =>
      DepositMovesOnlyDepositor(s.wallets, v, a, c, u);
    case WithdrawOp(req) =>
      var (t, r) := WithdrawOutcome(s, req);
      OnlyCallerDebited(s, req, u);
      if t != s {
        var w := t.records[|s.records|];
        assert t.records == s.records + [w];
        SuccessTotalAppend(s.records, w, u);
      }
  }

  /** Conservation over any run: every balance equals its starting value
      plus everything deposited, minus everything withdrawn successfully. */
  lemma {:induction false} Conservation(s: State, ops: seq<Op>, u: UserId)
    requires Consistent(s)
    ensures Balance(Run(s, ops).wallets, u) + SuccessTotal(Run(s, ops).records, u)
         == Balance(s.wallets, u) + SuccessTotal(s.records, u) + Deposited(ops, u)
    decreases |ops|
  {
    if ops != [] {
      var prefix := ops[..|ops| - 1];
      Conservation(s, prefix, u);
      StepConserves(Run(s, prefix), ops[|ops| - 1], u);
    }
  }

  /** No double spending: starting from the empty database, whatever
      requests arrive, a user's successful withdrawals never add up to more
      than the user has deposited, and the balance is exactly the
      difference. */
  lemma NoDoubleSpend(ops: seq<Op>, u: UserId)
    ensures SuccessTotal(Run(Empty, ops).records, u) <= Deposited(ops, u)
    ensures Balance(Run(Empty, ops).wallets, u) == Deposited(ops, u) - SuccessTotal(Run(Empty, ops).records, u)
  {
    Conservation(Empty, ops, u);
    assert Balance(Empty.wallets, u) == 0;
  }

  /** Withdrawals on one wallet with no deposit in between never succeed,
      together, for more than the balance the wallet started with. */
  lemma WithdrawalsBoundedByBalance(s: State, ops: seq<Op>, u: UserId)
    requires Consistent(s)
    requires Deposited(ops, u) == 0
    ensures SuccessTotal(Run(s, ops).records, u) - SuccessTotal(s.records, u) <= Balance(s.wallets, u)
  {
    Conservation(s, ops, u);
  }

  /** Records are never changed or removed once stored: a run only appends,
      and what it appends is already in a terminal status. */
  lemma {:induction false} RecordsOnlyGrow(s: State, ops: seq<Op>)
    requires Consistent(s)
    ensures |s.records| <= |Run(s, ops).records|
    ensures Run(s, ops).records[..|s.records|] == s.records
    ensures forall i :: |s.records| <= i < |Run(s, ops).records| ==> IsTerminal(Run(s, ops).records[i].status)
    decreases |ops|
  {
    if ops != [] {
      var prefix := ops[..|ops| - 1];
      RecordsOnlyGrow(s, prefix);
      var before := Run(s, prefix);
      var after := Run(s, ops);
      match ops[|ops| - 1]
      case DepositOp(_, _, _) =>
      case WithdrawOp(req) =>
        if after.records != before.records {
          if req.amountCents > 0 && Replayed(before, req).None? {
            OneRecordPerCall(before, req);
          }
          assert after.records == before.records + [after.records[|before.records|]];
          assert after.records[..|s.records|] == before.records[..|s.records|];
        }
    }
  }

  /** Idempotent retry: once a call with a non-empty key has stored a
      record, every later call by that user with that key, after any other
      requests, returns that same record and changes nothing, so the
      balance is debited at most once per key. */
  lemma {:induction false} RetryIsAnsweredWithStoredRecord(s: State, req: WithdrawalRequest, ops: seq<Op>, retry: WithdrawalRequest)
    requires Consistent(s) && Truthy(req.idempotencyKey)
    requires WithdrawOutcome(s, req).0 != s
    requires retry.user == req.user && retry.idempotencyKey == req.idempotencyKey && retry.amountCents > 0
    ensures var first := WithdrawOutcome(s, req).0;
      var later := Run(first, ops);
      WithdrawOutcome(later, retry) == (later, Ok(first.records[|s.records|]))
  {
    var first := WithdrawOutcome(s, req).0;
    var key := req.idempotencyKey.value;
    var w := first.records[|s.records|];
    assert first.records == s.records + [w];
    assert FindByKey(s.records, req.user, key).None?;
    assert HasKey(w, req.user, key);
    FindByKeyExtended(s.records, [w], req.user, key);
    assert FindByKey(first.records, req.user, key) == Some(w);
    var later := Run(first, ops);
    RecordsOnlyGrow(first, ops);
    var rest := later.records[|first.records|..];
    assert later.records == first.records + rest;
    FindByKeyExtended(first.records, rest, req.user, key);
    assert Replayed(later, retry) == Some(w);
  }

  /** A worked run: after a deposit of 1000 cents, two withdrawals of 400
      cents with distinct keys both succeed and leave 200; a third of 400
      fails and leaves the 200 in place. */
  lemma ThreeWithdrawalsOnThousand(u: UserId)
    ensures var ops := [DepositOp(u, 1000, None),
                        WithdrawOp(WithdrawalRequest(u, 400, None, "acct-1", Some("a"))),
                        WithdrawOp(WithdrawalRequest(u, 400, None, "acct-1", Some("b"))),
                        WithdrawOp(WithdrawalRequest(u, 400, None, "acct-1", Some("c")))];
      var t := Run(Empty, ops);
      |t.records| == 3 && t.records[0].status == Success && t.records[1].status == Success &&
      t.records[2].status == Failed && Balance(t.wallets, u) == 200
  {
    var ops := [DepositOp(u, 1000, None),
                WithdrawOp(WithdrawalRequest(u, 400, None, "acct-1", Some("a"))),
                WithdrawOp(WithdrawalRequest(u, 400, None, "acct-1", Some("b"))),
                WithdrawOp(WithdrawalRequest(u, 400, None, "acct-1", Some("c")))];
    assert ops[..1][..0] == [];
    assert Run(Empty, ops[..1]) == Apply(Run(Empty, []), ops[0]);
    var s1 := Run(Empty, ops[..1]);
    assert s1.wallets == map[u := Wallet(u, 1000, DefaultCurrency)] && s1.records == [];
    assert ops[..2][..1] == ops[..1];
    assert Run(Empty, ops[..2]) == Apply(s1, ops[1]);
    var s2 := Run(Empty, ops[..2]);
    assert Balance(s2.wallets, u) == 600 && |s2.records| == 1 && s2.records[0].status == Success;
    assert ops[..3][..2] == ops[..2];
    assert FindByKey(s2.records, u, "b").None?;
    assert Run(Empty, ops[..3]) == Apply(s2, ops[2]);
    var s3 := Run(Empty, ops[..3]);
    assert Balance(s3.wallets, u) == 200 && |s3.records| == 2 && s3.records[1].status == Success;
    assert ops[..3] == ops[..|ops| - 1];
    assert FindByKey(s3.records, u, "c").None?;
  }
}
