/**
 * The listener applied to the messages of the topic one after another, and
 * what holds of the repositories after any number of them: the record log
 * only grows, the new records replay to exactly the new balances, the total
 * of all balances grows by exactly the recorded incentives, and balances
 * stay non-negative when amounts and incentives are.
 */
module Stream {
  import opened Wrappers
  import opened Records
  import opened Transfers

  /** One delivered message together with the answer the incentive service gives for it. */
  datatype Delivery = Delivery(message: Transaction, reply: Option<Amount>)

  /** The state after the listener has handled every delivery in order. */
  function Run(s: State, deliveries: seq<Delivery>): State
    decreases |deliveries|
  {
    if deliveries == [] then s
    else Run(Process(s, deliveries[0].message, deliveries[0].reply).state, deliveries[1..])
  }

  // ---------------------------------------------------------------------------
  // Audit replay

  /** The balance update a record describes; a record naming an unknown user changes nothing. */
  function ApplyRecord(balances: map<UserId, Amount>, r: TransactionRecord): map<UserId, Amount>
  {
    if r.sender in balances && r.recipient in balances
    then Transfer(balances, r.sender, r.recipient, r.amount, r.incentive)
    else balances
  }

  /** The balances obtained by applying records in log order. */
  function Replay(balances: map<UserId, Amount>, records: seq<TransactionRecord>): map<UserId, Amount>
    decreases |records|
  {
    if records == [] then balances else Replay(ApplyRecord(balances, records[0]), records[1..])
  }

  /** Handling one delivery either appends nothing or appends one record describing the balance change. */
  lemma StepIsRecorded(s: State, d: Delivery)
    ensures var s' := Process(s, d.message, d.reply).state;
      && |s.records| <= |s'.records| <= |s.records| + 1
      && s'.records[..|s.records|] == s.records
      && s'.balances.Keys == s.balances.Keys
      && s'.balances == Replay(s.balances, s'.records[|s.records|..])
  {
  }

  /**
   * After any run the earlier records are untouched, no user is created or
   * removed, and the new records replay to exactly the new balances: no
   * balance change goes unrecorded and no record lacks its balance change.
   */
  lemma {:induction false} RunReplaysAuditLog(s: State, deliveries: seq<Delivery>)
    ensures var s' := Run(s, deliveries);
      && |s.records| <= |s'.records|
      && s'.records[..|s.records|] == s.records
      && s'.balances.Keys == s.balances.Keys
      && s'.balances == Replay(s.balances, s'.records[|s.records|..])
    decreases |deliveries|
  {
    if deliveries != [] {
      var s1 := Process(s, deliveries[0].message, deliveries[0].reply).state;
      var s' := Run(s1, deliveries[1..]);
      assert s' == Run(s, deliveries);
      StepIsRecorded(s, deliveries[0]);
      RunReplaysAuditLog(s1, deliveries[1..]);
      assert s'.records[..|s.records|] == s'.records[..|s1.records|][..|s.records|];
      if |s1.records| == |s.records| + 1 {
        var r := s1.records[|s.records|];
        assert s1.records[|s.records|..] == [r];
        assert s1.balances == ApplyRecord(s.balances, r);
        assert s'.records[|s.records|] == r;
        assert s'.records[|s.records|..] == [r] + s'.records[|s1.records|..];
      } else {
        assert s1.records == s.records;
      }
    }
  }

  /** Record identifiers stay the store's sequence over any run. */
  lemma {:induction false} RunKeepsIds(s: State, deliveries: seq<Delivery>)
    requires IdsGenerated(s.records)
    ensures IdsGenerated(Run(s, deliveries).records)
    decreases |deliveries|
  {
    if deliveries != [] {
      RunKeepsIds(Process(s, deliveries[0].message, deliveries[0].reply).state, deliveries[1..]);
    }
  }

  // ---------------------------------------------------------------------------
  // Money is created only as incentive

  ghost function AnyUser(balances: map<UserId, Amount>): (u: UserId)
    requires |balances| > 0
    ensures u in balances
  {
    assert exists u :: u in balances by {
      if forall u :: u !in balances { assert false; }
    }
    var u :| u in balances; u
  }

  /** The sum of all balances. */
  ghost function Total(balances: map<UserId, Amount>): int
    decreases |balances|
  {
    if |balances| == 0 then 0
    else
      var u := AnyUser(balances);
      assert |balances - {u}| < |balances| by {
        assert (balances - {u}).Keys == balances.Keys - {u};
      }
      balances[u] + Total(balances - {u})
  }

  /** Any user may be the one split off the total. */
  lemma {:induction false} TotalWithout(balances: map<UserId, Amount>, u: UserId)
    requires u in balances
    ensures Total(balances) == balances[u] + Total(balances - {u})
    decreases |balances|
  {
    var v := AnyUser(balances);
    if v != u {
      assert (balances - {v}).Keys == balances.Keys - {v};
      assert (balances - {u}).Keys == balances.Keys - {u};
      TotalWithout(balances - {v}, u);
      TotalWithout(balances - {u}, v);
      assert balances - {v} - {u} == balances - {u} - {v};
    }
  }

  /** Setting one existing balance changes the total by the difference. */
  lemma TotalUpdate(balances: map<UserId, Amount>, u: UserId, x: Amount)
    requires u in balances
    ensures Total(balances[u := x]) == Total(balances) - balances[u] + x
  {
    TotalWithout(balances, u);
    TotalWithout(balances[u := x], u);
    assert balances[u := x] - {u} == balances - {u};
  }

  /** A transfer adds exactly the incentive to the total of all balances. */
  lemma TransferTotal(balances: map<UserId, Amount>, sender: UserId, recipient: UserId,
                      amount: Amount, incentive: Amount)
    requires sender in balances && recipient in balances
    ensures Total(Transfer(balances, sender, recipient, amount, incentive)) == Total(balances) + incentive
  {
    var debited := balances[sender := balances[sender] - amount];
    TotalUpdate(balances, sender, balances[sender] - amount);
    TotalUpdate(debited, recipient, debited[recipient] + amount + incentive);
  }

  /** The sum of the incentives in a list of records. */
  function IncentiveSum(records: seq<TransactionRecord>): int
    decreases |records|
  {
    if records == [] then 0 else records[0].incentive + IncentiveSum(records[1..])
  }

  /** Replaying records whose users all exist adds exactly their incentives to the total. */
  lemma {:induction false} ReplayTotal(balances: map<UserId, Amount>, records: seq<TransactionRecord>)
    requires forall i :: 0 <= i < |records| ==> records[i].sender in balances && records[i].recipient in balances
    ensures Total(Replay(balances, records)) == Total(balances) + IncentiveSum(records)
    decreases |records|
  {
    if records != [] {
      var r := records[0];
      TransferTotal(balances, r.sender, r.recipient, r.amount, r.incentive);
      ReplayTotal(ApplyRecord(balances, r), records[1..]);
    }
  }

  /** Records appended by a run only name users that exist. */
  lemma {:induction false} RunRecordsNameKnownUsers(s: State, deliveries: seq<Delivery>)
    ensures var s' := Run(s, deliveries);
      |s.records| <= |s'.records| &&
      forall i :: |s.records| <= i < |s'.records| ==>
        s'.records[i].sender in s.balances && s'.records[i].recipient in s.balances
    decreases |deliveries|
  {
    if deliveries != [] {
      var s1 := Process(s, deliveries[0].message, deliveries[0].reply).state;
      StepIsRecorded(s, deliveries[0]);
      RunRecordsNameKnownUsers(s1, deliveries[1..]);
      RunReplaysAuditLog(s1, deliveries[1..]);
    }
  }

  /**
   * Money is not conserved, by design: over any run the total of all
   * balances grows by exactly the incentives of the records it appended.
   */
  lemma RunTotal(s: State, deliveries: seq<Delivery>)
    ensures var s' := Run(s, deliveries);
      |s.records| <= |s'.records| &&
      Total(s'.balances) == Total(s.balances) + IncentiveSum(s'.records[|s.records|..])
  {
    var s' := Run(s, deliveries);
    RunReplaysAuditLog(s, deliveries);
    RunRecordsNameKnownUsers(s, deliveries);
    var appended := s'.records[|s.records|..];
    assert forall i :: 0 <= i < |appended| ==> appended[i] == s'.records[|s.records| + i];
    ReplayTotal(s.balances, appended);
  }

  // ---------------------------------------------------------------------------
  // Non-negative balances

  ghost predicate NonNegative(balances: map<UserId, Amount>)
  {
    forall u :: u in balances ==> balances[u] >= 0
  }

  /** A message whose amount and incentive are not negative, as the producer and the service intend. */
  predicate WellSigned(d: Delivery)
  {
    d.message.amount >= 0 && (d.reply.Some? ==> d.reply.value >= 0)
  }

  /** No run of well-signed messages drives any balance below zero. */
  lemma {:induction false} RunKeepsNonNegative(s: State, deliveries: seq<Delivery>)
    requires NonNegative(s.balances)
    requires forall i :: 0 <= i < |deliveries| ==> WellSigned(deliveries[i])
    ensures NonNegative(Run(s, deliveries).balances)
    decreases |deliveries|
  {
    if deliveries != [] {
      var d := deliveries[0];
      var s1 := Process(s, d.message, d.reply).state;
      assert WellSigned(d);
      assert NonNegative(s1.balances);
      RunKeepsNonNegative(s1, deliveries[1..]);
    }
  }

  /** The listener does not check the sign of the amount: a negative amount can overdraw the recipient. */
  lemma NegativeAmountOverdrawsRecipient()
    ensures var s := State(map[1 := 100, 2 := 0], []);
      var s' := Process(s, Transaction(1, 2, -5), Some(0)).state;
      s'.balances[2] == -5 && |s'.records| == 1
  {
  }

  /** Sender 1 with 100 pays 30 to recipient 2 with 50; the incentive service answers 2. */
  lemma ExampleTransfer()
    ensures var s := State(map[1 := 100, 2 := 50], []);
      var r := Process(s, Transaction(1, 2, 30), Some(2));
      && r.outcome == Returned
      && r.state.balances == map[1 := 70, 2 := 82]
      && r.state.records == [TransactionRecord(Some(1), 1, 2, 30, 2)]
  {
  }
}
