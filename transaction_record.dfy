/**
 * The audit entry written for every applied transfer, and the append-only
 * store that keeps these entries and hands out their identifiers.
 */
module Records {
  import opened Wrappers

  /** A user is identified by a 64-bit id in the source; ids are unbounded here. */
  type UserId = int

  /** Amounts are single-precision floats in the source; they are exact integers here. */
  type Amount = int

  /**
   * One persisted transfer. The sender and recipient are references to user
   * entities in the source; the model keeps their ids. `id` is None until the
   * store has saved the record.
   */
  datatype TransactionRecord = TransactionRecord(
    id: Option<nat>,
    sender: UserId,
    recipient: UserId,
    amount: Amount,
    incentive: Amount)

  /** The four-argument constructor: stores each argument unchanged and leaves the id to the store. */
  function NewTransactionRecord(sender: UserId, recipient: UserId, amount: Amount, incentive: Amount)
    : (r: TransactionRecord)
    ensures r.id == None
    ensures r.sender == sender && r.recipient == recipient
    ensures r.amount == amount && r.incentive == incentive
  {
    TransactionRecord(None, sender, recipient, amount, incentive)
  }

  /** The store's identifier sequence: the record at position i carries id i + 1. */
  ghost predicate IdsGenerated(log: seq<TransactionRecord>)
  {
    forall i :: 0 <= i < |log| ==> log[i].id == Some(i + 1)
  }

  /** Appending a record: the store assigns the next identifier and keeps every earlier record. */
  function Save(log: seq<TransactionRecord>, r: TransactionRecord): (log': seq<TransactionRecord>)
    ensures |log'| == |log| + 1 && log'[..|log|] == log
    ensures log'[|log|].id.Some? && log'[|log|].(id := r.id) == r
    ensures IdsGenerated(log) ==> IdsGenerated(log')
  {
    log + [r.(id := Some(|log| + 1))]
  }

  /** Identifiers handed out by the store are never reused. */
  lemma IdsUnique(log: seq<TransactionRecord>, i: nat, j: nat)
    requires IdsGenerated(log)
    requires i < j < |log|
    ensures log[i].id.Some? && log[i].id != log[j].id
  {
  }
}
