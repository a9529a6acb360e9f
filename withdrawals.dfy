/** The withdrawal collection: the record schema (status enum, field
    bounds and defaults), the partial unique index on (user,
    idempotencyKey), and the store calls the orchestrator makes. */
module Withdrawals {
  import opened Common

  /** WITHDRAWAL_STATUS. The field is an enum of these four values. */
  datatype Status = Pending | Processing | Success | Failed

  function StatusName(s: Status): string {
    match s
    case Pending => "pending"
    case Processing => "processing"
    case Success => "success"
    case Failed => "failed"
  }

  /** The schema's enum validator: a string is accepted exactly when it is
      the name of one of the four statuses. */
  function ParseStatus(s: string): (r: Option<Status>)
    ensures r.Some? ==> StatusName(r.value) == s
    ensures r.None? ==> forall st: Status :: StatusName(st) != s
  {
    if s == "pending" then Some(Pending)
    else if s == "processing" then Some(Processing)
    else if s == "success" then Some(Success)
    else if s == "failed" then Some(Failed)
    else None
  }

  /** The orchestrator's status transitions. */
  predicate Transition(from: Status, to: Status) {
    (from == Pending && to == Processing) ||
    (from == Processing && (to == Success || to == Failed))
  }

  predicate IsTerminal(s: Status) {
    s == Success || s == Failed
  }

  /** A run through the lifecycle: it starts in Pending and every step is a
      transition. */
  predicate IsLifecycle(trace: seq<Status>) {
    |trace| > 0 && trace[0] == Pending &&
    forall i :: 0 < i < |trace| ==> Transition(trace[i - 1], trace[i])
  }

  /** A withdrawal document. `id` stands for the generated `_id`; the
      timestamps are not modelled. A key of None is an absent key. */
  datatype Withdrawal = Withdrawal(
    id: nat,
    user: UserId,
    amountCents: int,
    currency: string,
    destination: string,
    status: Status,
    failureReason: Option<string>,
    idempotencyKey: Option<string>)

  /** The schema's field validators: `amountCents` has min 1, `currency`
      and `destination` are required (a required string may not be empty). */
  predicate ValidRecord(w: Withdrawal) {
    w.amountCents >= 1 && w.currency != "" && w.destination != ""
  }

  /** The partial unique index: two records of one user never share a
      present key. Records without a key are not constrained. */
  ghost predicate KeysUnique(records: seq<Withdrawal>) {
    forall i, j :: 0 <= i < j < |records| && records[i].idempotencyKey.Some? ==>
      !(records[i].user == records[j].user && records[i].idempotencyKey == records[j].idempotencyKey)
  }

  /** The collection: ids are the insertion positions, every record passes
      the validators, and the unique index holds. */
  ghost predicate WellFormed(records: seq<Withdrawal>) {
    (forall i :: 0 <= i < |records| ==> records[i].id == i && ValidRecord(records[i])) &&
    KeysUnique(records)
  }

  /** Whether `w` is a document matched by findOne({ user, idempotencyKey: key }). */
  predicate HasKey(w: Withdrawal, user: UserId, key: string) {
    w.user == user && w.idempotencyKey == Some(key)
  }

  /** findOne({ user, idempotencyKey: key }): the first matching record in
      insertion order, or None when no record matches. */
  function FindByKey(records: seq<Withdrawal>, user: UserId, key: string): (r: Option<Withdrawal>)
    ensures r.Some? ==> r.value in records && HasKey(r.value, user, key)
    ensures r.None? <==> forall i :: 0 <= i < |records| ==> !HasKey(records[i], user, key)
  {
    if records == [] then None
    else if HasKey(records[0], user, key) then Some(records[0])
    else FindByKey(records[1..], user, key)
  }

  /** The lookup over a longer collection: a match among the older records
      is still the one found, and otherwise the first match among the added
      ones is. */
  lemma {:induction false} FindByKeyExtended(records: seq<Withdrawal>, added: seq<Withdrawal>, user: UserId, key: string)
    ensures FindByKey(records + added, user, key) ==
      if FindByKey(records, user, key).Some? then FindByKey(records, user, key) else FindByKey(added, user, key)
    decreases |records|
  {
    if records != [] {
      assert (records + added)[0] == records[0];
      assert (records + added)[1..] == records[1..] + added;
      if !HasKey(records[0], user, key) {
        FindByKeyExtended(records[1..], added, user, key);
      }
    } else {
      assert records + added == added;
    }
  }

  /** findById(id) */
  function FindById(records: seq<Withdrawal>, id: nat): (r: Option<Withdrawal>)
    requires WellFormed(records)
    ensures r.Some? <==> id < |records|
    ensures r.Some? ==> r.value.id == id && r.value in records
  {
    if id < |records| then Some(records[id]) else None
  }

  /** Whether inserting a record of `user` with `key` would violate the
      unique index. */
  predicate KeyTaken(records: seq<Withdrawal>, user: UserId, key: Option<string>) {
    key.Some? && FindByKey(records, user, key.value).Some?
  }

  /** The field validators run on a new document, after the defaults. */
  predicate PassesValidators(amountCents: int, currency: Option<string>, destination: string) {
    amountCents >= 1 && currency != Some("") && destination != ""
  }

  /** Withdrawal.create: apply the defaults (currency "INR", status
      pending), run the validators, then check the unique index. The new
      document gets the next id and carries no failure reason. */
  function Created(records: seq<Withdrawal>, user: UserId, amountCents: int, currency: Option<string>,
                   destination: string, status: Option<Status>, key: Option<string>): (r: Result<Withdrawal>)
    requires WellFormed(records)
    ensures r == Err(ValidationFailed) <==> !PassesValidators(amountCents, currency, destination)
    ensures r == Err(DuplicateKey) <==> PassesValidators(amountCents, currency, destination) && KeyTaken(records, user, key)
    ensures r.Ok? || r == Err(ValidationFailed) || r == Err(DuplicateKey)
    ensures r.Ok? ==> WellFormed(records + [r.value])
    ensures r.Ok? ==> r.value.id == |records| && r.value.user == user && r.value.amountCents == amountCents
                      && r.value.currency == currency.GetOr(DefaultCurrency) && r.value.destination == destination
                      && r.value.status == status.GetOr(Pending) && r.value.failureReason == None
                      && r.value.idempotencyKey == key
  {
    if !PassesValidators(amountCents, currency, destination) then Err(ValidationFailed)
    else if KeyTaken(records, user, key) then Err(DuplicateKey)
    else
      var w := Withdrawal(|records|, user, amountCents, currency.GetOr(DefaultCurrency), destination,
                          status.GetOr(Pending), None, key);
      Ok(w)
  }

  /** What an updateOne call reports and leaves: whether a document
      matched the filter, and the collection afterwards. */
  datatype UpdateResult = UpdateResult(matched: bool, records: seq<Withdrawal>)

  /** Withdrawal.create against the server as the index is declared. The
      partial filter `{ idempotencyKey: { $exists: true, $ne: null } }` uses
      `$ne`, which a partial index filter does not accept, so the server
      refuses to build the index and no unique index exists. Only the
      validators can refuse the document. */
  function CreatedAsWritten(records: seq<Withdrawal>, user: UserId, amountCents: int, currency: Option<string>,
                            destination: string, status: Option<Status>, key: Option<string>): (r: Result<Withdrawal>)
    ensures r.Err? <==> !PassesValidators(amountCents, currency, destination)
    ensures r.Err? ==> r.error == ValidationFailed
    ensures WellFormed(records) && !KeyTaken(records, user, key) ==>
              r == Created(records, user, amountCents, currency, destination, status, key)
  {
    if !PassesValidators(amountCents, currency, destination) then Err(ValidationFailed)
    else Ok(Withdrawal(|records|, user, amountCents, currency.GetOr(DefaultCurrency), destination,
                       status.GetOr(Pending), None, key))
  }

  /** The discrepancy: when the user already has a record with a key, a
      second create with the same key is stored as written, and the
      collection then holds two records of that user with that key, which
      the declared index is meant to exclude (`Created` refuses it). */
  lemma SameKeyStoredTwiceAsWritten(records: seq<Withdrawal>, user: UserId, amountCents: int, currency: Option<string>,
                                    destination: string, key: string)
    requires WellFormed(records) && PassesValidators(amountCents, currency, destination)
    requires exists i :: 0 <= i < |records| && HasKey(records[i], user, key)
    ensures var r := CreatedAsWritten(records, user, amountCents, currency, destination, Some(Pending), Some(key));
      r.Ok? && !KeysUnique(records + [r.value])
    ensures Created(records, user, amountCents, currency, destination, Some(Pending), Some(key)) == Err(DuplicateKey)
  {
    var r := CreatedAsWritten(records, user, amountCents, currency, destination, Some(Pending), Some(key));
    var i :| 0 <= i < |records| && HasKey(records[i], user, key);
    var after := records + [r.value];
    assert after[i] == records[i] && after[|records|] == r.value;
    assert !FindByKey(records, user, key).None?;
  }

  /** updateOne({ _id: id, status: expected }, { status }). */
  function UpdatedWhere(records: seq<Withdrawal>, id: nat, expected: Status, status: Status): (r: UpdateResult)
    requires WellFormed(records)
    ensures r.matched <==> id < |records| && records[id].status == expected
    ensures WellFormed(r.records) && |r.records| == |records|
    ensures forall i :: 0 <= i < |records| && i != id ==> r.records[i] == records[i]
    ensures r.matched ==> r.records[id] == records[id].(status := status)
    ensures !r.matched ==> r.records == records
  {
    if id < |records| && records[id].status == expected then
      UpdateResult(true, records[id := records[id].(status := status)])
    else
      UpdateResult(false, records)
  }

  /** updateOne({ _id: id }, { status, failureReason }), where a reason of
      None means the update does not name that field. */
  function Updated(records: seq<Withdrawal>, id: nat, status: Status, reason: Option<string>): (r: UpdateResult)
    requires WellFormed(records)
    ensures r.matched <==> id < |records|
    ensures WellFormed(r.records) && |r.records| == |records|
    ensures forall i :: 0 <= i < |records| && i != id ==> r.records[i] == records[i]
    ensures r.matched ==> r.records[id] == records[id].(status := status,
                                            failureReason := if reason.Some? then reason else records[id].failureReason)
    ensures !r.matched ==> r.records == records
  {
    if id < |records| then
      var w := records[id];
      UpdateResult(true, records[id := w.(status := status, failureReason := if reason.Some? then reason else w.failureReason)])
    else
      UpdateResult(false, records)
  }

  /** The withdrawal collection as a mutable store. Each method is one
      atomic call of the document store. */
  class WithdrawalStore {
    var records: seq<Withdrawal>

    ghost predicate Valid()
      reads this
    {
      WellFormed(records)
    }

    constructor ()
      ensures Valid() && records == []
    {
      records := [];
    }

    /** Withdrawal.create(...); on success the document is appended. */
    method Create(user: UserId, amountCents: int, currency: Option<string>, destination: string,
                  status: Option<Status>, key: Option<string>) returns (r: Result<Withdrawal>)
      requires Valid()
      modifies this
      ensures Valid()
      ensures r == Created(old(records), user, amountCents, currency, destination, status, key)
      ensures records == if r.Ok? then old(records) + [r.value] else old(records)
    {
      r := Created(records, user, amountCents, currency, destination, status, key);
      if r.Ok? {
        records := records + [r.value];
      }
    }

    /** updateOne filtered on id and expected status. */
    method UpdateStatusWhere(id: nat, expected: Status, status: Status) returns (matched: bool)
      requires Valid()
      modifies this
      ensures Valid()
      ensures UpdateResult(matched, records) == UpdatedWhere(old(records), id, expected, status)
    {
      matched := id < |records| && records[id].status == expected;
      if matched {
        records := records[id := records[id].(status := status)];
      }
    }

    /** updateOne filtered on id only. */
    method Update(id: nat, status: Status, reason: Option<string>) returns (matched: bool)
      requires Valid()
      modifies this
      ensures Valid()
      ensures UpdateResult(matched, records) == Updated(old(records), id, status, reason)
    {
      matched := id < |records|;
      if matched {
        var w := records[id];
        records := records[id := w.(status := status, failureReason := if reason.Some? then reason else w.failureReason)];
      }
    }
  }
}
