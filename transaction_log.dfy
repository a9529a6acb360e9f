/** The transaction log: an insert-only collection of ledger entries.
    Its schema fixes the entry kinds, contexts and numeric bounds, and its
    hooks refuse the three calls `updateOne`, `findOneAndUpdate` and
    `deleteOne`. Neither the deposit nor the withdrawal flow writes to it. */
module TransactionLog {
  import opened Common

  /** TRANSACTION_TYPE */
  datatype TransactionType = Debit | Credit

  /** TRANSACTION_CONTEXT */
  datatype TransactionContext = WithdrawalContext | DepositContext

  function TypeName(t: TransactionType): string {
    match t
    case Debit => "debit"
    case Credit => "credit"
  }

  function ContextName(c: TransactionContext): string {
    match c
    case WithdrawalContext => "withdrawal"
    case DepositContext => "deposit"
  }

  /** The enum validator of the `type` field. */
  function ParseType(s: string): (r: Option<TransactionType>)
    ensures r.Some? <==> s == "debit" || s == "credit"
    ensures r.Some? ==> TypeName(r.value) == s
  {
    if s == "debit" then Some(Debit) else if s == "credit" then Some(Credit) else None
  }

  /** The enum validator of the `context` field. */
  function ParseContext(s: string): (r: Option<TransactionContext>)
    ensures r.Some? <==> s == "withdrawal" || s == "deposit"
    ensures r.Some? ==> ContextName(r.value) == s
  {
    if s == "withdrawal" then Some(WithdrawalContext) else if s == "deposit" then Some(DepositContext) else None
  }

  /** Status given to an entry that names none. */
  const DefaultEntryStatus: string := "committed"

  /** A stored entry. `id`, `wallet` and `referenceId` stand for ObjectIds;
      the free-form `metadata` and the timestamps are not modelled. */
  datatype LogEntry = LogEntry(
    id: nat,
    user: UserId,
    wallet: nat,
    kind: TransactionType,
    context: TransactionContext,
    referenceId: nat,
    amountCents: int,
    beforeBalanceCents: int,
    afterBalanceCents: int,
    status: string)

  /** The fields of an entry as handed to create, before validation. A
      status of None is an absent status. */
  datatype EntryDraft = EntryDraft(
    user: UserId,
    wallet: nat,
    kind: string,
    context: string,
    referenceId: nat,
    amountCents: int,
    beforeBalanceCents: int,
    afterBalanceCents: int,
    status: Option<string>)

  /** The schema's bounds on a stored entry. */
  predicate ValidEntry(e: LogEntry) {
    e.amountCents >= 1 && e.beforeBalanceCents >= 0 && e.afterBalanceCents >= 0 && e.status != ""
  }

  /** Whether a draft passes every validator of the schema. */
  predicate Acceptable(d: EntryDraft) {
    ParseType(d.kind).Some? && ParseContext(d.context).Some? &&
    d.amountCents >= 1 && d.beforeBalanceCents >= 0 && d.afterBalanceCents >= 0 &&
    d.status != Some("")
  }

  /** TransactionLog.create: validate the draft and, when it passes, the
      entry stored under `id` with the default status applied. */
  function Validated(d: EntryDraft, id: nat): (r: Result<LogEntry>)
    ensures r.Ok? <==> Acceptable(d)
    ensures r.Err? ==> r.error == ValidationFailed
    ensures r.Ok? ==> ValidEntry(r.value) && r.value.id == id
    ensures r.Ok? ==> TypeName(r.value.kind) == d.kind && ContextName(r.value.context) == d.context
    ensures r.Ok? ==> r.value.user == d.user && r.value.wallet == d.wallet && r.value.referenceId == d.referenceId
                      && r.value.amountCents == d.amountCents && r.value.beforeBalanceCents == d.beforeBalanceCents
                      && r.value.afterBalanceCents == d.afterBalanceCents
                      && r.value.status == d.status.GetOr(DefaultEntryStatus)
  {
    if !Acceptable(d) then Err(ValidationFailed)
    else Ok(LogEntry(id, d.user, d.wallet, ParseType(d.kind).value, ParseContext(d.context).value,
                     d.referenceId, d.amountCents, d.beforeBalanceCents, d.afterBalanceCents,
                     d.status.GetOr(DefaultEntryStatus)))
  }

  /** Every call the collection accepts. */
  datatype LogCall =
    | Insert(draft: EntryDraft)
    | UpdateOne(id: nat, change: EntryDraft)
    | FindOneAndUpdate(id: nat, change: EntryDraft)
    | DeleteOne(id: nat)

  /** The texts the hooks are meant to refuse a call with. */
  const ImmutableUpdateMessage: string := "TransactionLog documents are immutable and cannot be updated"
  const ImmutableDeleteMessage: string := "TransactionLog documents are immutable and cannot be deleted"

  /** The text of the RangeError the JavaScript engine raises when the call
      stack runs out. */
  const CallStackExceededMessage: string := "Maximum call stack size exceeded"

  /** One call against the collection, with the hooks refusing as they are
      meant to: the entries afterwards and the call's result. Only an
      accepted insert changes anything; an update is refused with the
      "cannot be updated" text and a delete with the "cannot be deleted"
      text. */
  function Step(entries: seq<LogEntry>, call: LogCall): (r: (seq<LogEntry>, Result<LogEntry>))
    ensures r.1.Ok? <==> call.Insert? && Acceptable(call.draft)
    ensures r.0 == if r.1.Ok? then entries + [r.1.value] else entries
    ensures (call.UpdateOne? || call.FindOneAndUpdate?) ==> r.1 == Err(HookRefusal(ImmutableUpdateMessage))
    ensures call.DeleteOne? ==> r.1 == Err(HookRefusal(ImmutableDeleteMessage))
  {
    match call
    case Insert(d) =>
      var r := Validated(d, |entries|);
      (if r.Ok? then entries + [r.value] else entries, r)
    case UpdateOne(_, _) => (entries, Err(HookRefusal(ImmutableUpdateMessage)))
    case FindOneAndUpdate(_, _) => (entries, Err(HookRefusal(ImmutableUpdateMessage)))
    case DeleteOne(_) => (entries, Err(HookRefusal(ImmutableDeleteMessage)))
  }

  /** One call as the hooks are written. Each hook is a function named
      `next` that takes no parameter, so the `next(...)` in its body calls
      the hook itself again, until the call stack runs out. The store calls
      a hook without parameters directly, catches what it throws and fails
      the call with it. So a hooked call is still refused and the log still
      unchanged, exactly as in `Step`, but with the stack-overflow error
      instead of the immutability error. */
  function StepAsWritten(entries: seq<LogEntry>, call: LogCall): (r: (seq<LogEntry>, Result<LogEntry>))
    ensures r.0 == Step(entries, call).0
    ensures r.1.Ok? <==> Step(entries, call).1.Ok?
    ensures call.Insert? ==> r.1 == Step(entries, call).1
    ensures !call.Insert? ==> r.1 == Err(HookRefusal(CallStackExceededMessage))
  {
    if call.Insert? then Step(entries, call) else (entries, Err(HookRefusal(CallStackExceededMessage)))
  }

  /** The discrepancy: as written, an update or a delete of a log entry
      fails with neither immutability text, where `Step` gives each. */
  lemma HookErrorsDiffer(entries: seq<LogEntry>, id: nat, change: EntryDraft)
    ensures StepAsWritten(entries, UpdateOne(id, change)).1.error.message != Step(entries, UpdateOne(id, change)).1.error.message
    ensures StepAsWritten(entries, FindOneAndUpdate(id, change)).1.error.message != Step(entries, FindOneAndUpdate(id, change)).1.error.message
    ensures StepAsWritten(entries, DeleteOne(id)).1.error.message != Step(entries, DeleteOne(id)).1.error.message
  {
  }

  /** The collection: ids are insertion positions and every entry is within
      the schema's bounds. */
  ghost predicate WellFormed(entries: seq<LogEntry>) {
    forall i :: 0 <= i < |entries| ==> entries[i].id == i && ValidEntry(entries[i])
  }

  /** The collection after a sequence of calls, applied in order. */
  function Replay(entries: seq<LogEntry>, calls: seq<LogCall>): seq<LogEntry>
    decreases |calls|
  {
    if calls == [] then entries
    else Replay(Step(entries, calls[0]).0, calls[1..])
  }

  /** Number of calls in `calls` that are inserts the validators accept. */
  function AcceptedInserts(calls: seq<LogCall>): nat
    decreases |calls|
  {
    if calls == [] then 0
    else (if calls[0].Insert? && Acceptable(calls[0].draft) then 1 else 0) + AcceptedInserts(calls[1..])
  }

  /** Whatever calls are made, the log only grows by accepted inserts: the
      entries that were there stay, unchanged and in place, the log grows by
      exactly one entry per accepted insert, and it stays well formed. */
  lemma {:induction false} AppendOnly(entries: seq<LogEntry>, calls: seq<LogCall>)
    requires WellFormed(entries)
    ensures WellFormed(Replay(entries, calls))
    ensures |Replay(entries, calls)| == |entries| + AcceptedInserts(calls)
    ensures Replay(entries, calls)[..|entries|] == entries
    decreases |calls|
  {
    if calls != [] {
      var next := Step(entries, calls[0]).0;
      assert WellFormed(next);
      AppendOnly(next, calls[1..]);
      assert next[..|entries|] == entries;
      var final := Replay(entries, calls);
      assert final == Replay(next, calls[1..]);
      assert final[..|next|] == next;
      assert final[..|entries|] == final[..|next|][..|entries|];
    }
  }

  /** The transaction-log collection as a mutable store. Create is its only
      mutator; the update and delete calls have no `modifies` clause, so the
      verifier itself guarantees that they leave the entries untouched. */
  class TransactionLogStore {
    var entries: seq<LogEntry>

    ghost predicate Valid()
      reads this
    {
      WellFormed(entries)
    }

    constructor ()
      ensures Valid() && entries == []
    {
      entries := [];
    }

    /** TransactionLog.create(draft) */
    method Create(draft: EntryDraft) returns (r: Result<LogEntry>)
      requires Valid()
      modifies this
      ensures Valid()
      ensures (entries, r) == Step(old(entries), Insert(draft))
    {
      r := Validated(draft, |entries|);
      if r.Ok? {
        entries := entries + [r.value];
      }
    }

    /** updateOne: refused by the pre('updateOne') hook, with the text the hook means to raise
        (`StepAsWritten` gives the error it raises as written). */
    method UpdateEntry(id: nat, change: EntryDraft) returns (r: Result<LogEntry>)
      ensures (entries, r) == Step(entries, UpdateOne(id, change))
      ensures r == Err(HookRefusal(ImmutableUpdateMessage))
    {
      r := Err(HookRefusal(ImmutableUpdateMessage));
    }

    /** findOneAndUpdate: refused by the pre('findOneAndUpdate') hook, with the text the hook means to raise
        (`StepAsWritten` gives the error it raises as written). */
    method FindEntryAndUpdate(id: nat, change: EntryDraft) returns (r: Result<LogEntry>)
      ensures (entries, r) == Step(entries, FindOneAndUpdate(id, change))
      ensures r == Err(HookRefusal(ImmutableUpdateMessage))
    {
      r := Err(HookRefusal(ImmutableUpdateMessage));
    }

    /** deleteOne: refused by the pre('deleteOne') hook, with the text the hook means to raise
        (`StepAsWritten` gives the error it raises as written). */
    method DeleteEntry(id: nat) returns (r: Result<LogEntry>)
      ensures (entries, r) == Step(entries, DeleteOne(id))
      ensures r == Err(HookRefusal(ImmutableDeleteMessage))
    {
      r := Err(HookRefusal(ImmutableDeleteMessage));
    }
  }
}
