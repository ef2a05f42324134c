/**
 * The transfer rule applied to one message of the transaction topic: look up
 * both users, drop the message silently when one is missing or the sender
 * cannot cover the amount, otherwise ask for an incentive, debit the sender,
 * credit the recipient with the amount plus the incentive and save one
 * audit record.
 */
module Transfers {
  import opened Wrappers
  import opened Records

  /** The already-parsed message payload. */
  datatype Transaction = Transaction(senderId: UserId, recipientId: UserId, amount: Amount)

  /** The two repositories: user balances by id and the record log. */
  datatype State = State(balances: map<UserId, Amount>, records: seq<TransactionRecord>)

  /** Why a message is, or is not, applied. */
  datatype Admission = MissingUser | InsufficientBalance | Admitted

  /**
   * How the listener returns. Dropped and applied messages both return
   * normally; a failed incentive call propagates as an exception.
   */
  datatype Outcome = Returned | IncentiveCallFailed

  datatype Handled = Handled(state: State, outcome: Outcome)

  /** The repository lookup by id. */
  function FindById(balances: map<UserId, Amount>, id: UserId): (r: Option<Amount>)
    ensures r.Some? <==> id in balances
    ensures r.Some? ==> r.value == balances[id]
  {
    if id in balances then Some(balances[id]) else None
  }

  /** The two early returns of the listener, in their order. */
  function Admit(balances: map<UserId, Amount>, t: Transaction): (a: Admission)
    ensures a == MissingUser <==> t.senderId !in balances || t.recipientId !in balances
    ensures a == InsufficientBalance <==>
      t.senderId in balances && t.recipientId in balances && balances[t.senderId] < t.amount
    ensures a == Admitted <==>
      t.senderId in balances && t.recipientId in balances && balances[t.senderId] >= t.amount
  {
    if t.senderId !in balances || t.recipientId !in balances then MissingUser
    else if balances[t.senderId] < t.amount then InsufficientBalance
    else Admitted
  }

  /**
   * The debit followed by the credit. The credit reads the balance after the
   * debit, so when sender and recipient are the same user the net change is
   * the incentive alone.
   */
  function Transfer(balances: map<UserId, Amount>, sender: UserId, recipient: UserId,
                    amount: Amount, incentive: Amount): (b: map<UserId, Amount>)
    requires sender in balances && recipient in balances
    ensures b.Keys == balances.Keys
    ensures sender != recipient ==>
      b[sender] == balances[sender] - amount &&
      b[recipient] == balances[recipient] + amount + incentive
    ensures sender == recipient ==> b[sender] == balances[sender] + incentive
    ensures forall u :: u in balances && u != sender && u != recipient ==> b[u] == balances[u]
  {
    var debited := balances[sender := balances[sender] - amount];
    debited[recipient := debited[recipient] + amount + incentive]
  }

  /**
   * One invocation of the listener. `reply` is the answer of the incentive
   * service: None when the call fails.
   */
  function Process(s: State, t: Transaction, reply: Option<Amount>): (r: Handled)
    // A dropped message changes nothing and never depends on the incentive service.
    ensures Admit(s.balances, t) != Admitted ==> r == Handled(s, Returned)
    // A failed incentive call happens before any write, so nothing changes.
    ensures Admit(s.balances, t) == Admitted && reply.None? ==> r == Handled(s, IncentiveCallFailed)
    ensures Admit(s.balances, t) == Admitted && reply.Some? ==>
      && r.outcome == Returned
      && r.state.balances == Transfer(s.balances, t.senderId, t.recipientId, t.amount, reply.value)
      && |r.state.records| == |s.records| + 1
      && r.state.records[..|s.records|] == s.records
      && r.state.records[|s.records|].(id := None)
         == NewTransactionRecord(t.senderId, t.recipientId, t.amount, reply.value)
    // The balance check keeps the debited sender non-negative.
    ensures Admit(s.balances, t) == Admitted && reply.Some? && t.senderId != t.recipientId ==>
      r.state.balances[t.senderId] >= 0
    ensures IdsGenerated(s.records) ==> IdsGenerated(r.state.records)
  {
    match Admit(s.balances, t)
    case MissingUser => Handled(s, Returned)
    case InsufficientBalance => Handled(s, Returned)
    case Admitted =>
      match reply
      case None => Handled(s, IncentiveCallFailed)
      case Some(incentive) =>
        var balances := Transfer(s.balances, t.senderId, t.recipientId, t.amount, incentive);
        var record := NewTransactionRecord(t.senderId, t.recipientId, t.amount, incentive);
        Handled(State(balances, Save(s.records, record)), Returned)
  }

  /** Whichever incentive the service would have returned, a dropped message has the same effect. */
  lemma DroppedIgnoresIncentive(s: State, t: Transaction, reply1: Option<Amount>, reply2: Option<Amount>)
    requires Admit(s.balances, t) != Admitted
    ensures Process(s, t, reply1) == Process(s, t, reply2) == Handled(s, Returned)
  {
  }

  /** The listener object over its two repositories. */
  class TransactionListener {
    var users: map<UserId, Amount>
    var transactionRecords: seq<TransactionRecord>

    ghost predicate Valid()
      reads this
    {
      IdsGenerated(transactionRecords)
    }

    function Snapshot(): State
      reads this
    {
      State(users, transactionRecords)
    }

    constructor (users: map<UserId, Amount>, transactionRecords: seq<TransactionRecord>)
      requires IdsGenerated(transactionRecords)
      ensures Valid()
      ensures this.users == users && this.transactionRecords == transactionRecords
    {
      this.users := users;
      this.transactionRecords := transactionRecords;
    }

    /** Handles one parsed message; `reply` stands for the incentive service's answer. */
    method Listen(transaction: Transaction, reply: Option<Amount>) returns (outcome: Outcome)
      requires Valid()
      modifies this
      ensures Valid()
      ensures Handled(Snapshot(), outcome) == Process(old(Snapshot()), transaction, reply)
    {
      var senderOpt := FindById(users, transaction.senderId);
      var recipientOpt := FindById(users, transaction.recipientId);
      if senderOpt.None? || recipientOpt.None? {
        return Returned;
      }
      if senderOpt.value < transaction.amount {
        return Returned;
      }
      if reply.None? {
        return IncentiveCallFailed;
      }
      var incentiveAmount := reply.value;

      users := users[transaction.senderId := users[transaction.senderId] - transaction.amount];
      users := users[transaction.recipientId :=
                       users[transaction.recipientId] + transaction.amount + incentiveAmount];

      var record := NewTransactionRecord(transaction.senderId, transaction.recipientId,
                                         transaction.amount, incentiveAmount);
      transactionRecords := Save(transactionRecords, record);
      outcome := Returned;
    }
  }
}
