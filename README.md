# Midas core: the transfer listener, modelled and verified in Dafny

The Midas core reads transfer messages from a Kafka topic. For each message,
`KafkaTransactionListener.listen` looks up the sender and the recipient in the
user repository. It returns without doing anything when either one is missing
or when the sender's balance is below the amount. Otherwise it asks the
incentive service for an incentive, debits the sender by the amount, credits
the recipient by the amount plus the incentive, saves both users and saves one
`TransactionRecord` (sender, recipient, amount, incentive) whose id the store
generates.

The model has four modules:

- `Wrappers` (`wrappers.dfy`): `Option`.
- `Records` (`transaction_record.dfy`): the `TransactionRecord` datatype, its
  four-argument constructor, and the append-only record store that assigns ids.
- `Transfers` (`transaction_listener.dfy`): the parsed `Transaction`, the
  repositories as a `State` (a balance map and a record log), and the pure
  specification `Process` of one invocation. It also holds the class
  `TransactionListener`, whose fields are the two repositories. Its method
  `Listen` runs the source's steps in the source's order, early returns
  included, and is proved equal to `Process`.
- `Stream` (`transaction_stream.dfy`): `Run` applies the listener to the
  messages of the topic one after another. Lemmas show what holds after any
  number of messages.

Points of the model:

- The debit is applied first. The credit then reads the recipient's balance
  from the updated map, as line 64 reads it from the entity already changed
  on line 63. A transfer to oneself therefore nets `+incentive`, as in the
  source, where both lookups return the same entity.
- The incentive service's answer is a parameter, `reply: Option<Amount>`.
  `None` stands for a call that throws, or one that returns no body so that
  `incentive.amount()` throws. That exception happens before any write, so
  the model returns `IncentiveCallFailed` with the state unchanged.
- A dropped message returns normally and changes nothing, as in the source.
  No rejection is signalled.
- Amounts and ids are mathematical integers.

## Model

| member | source | states |
|---|---|---|
| `Records.NewTransactionRecord` | src/main/java/com/jpmc/midascore/entity/TransactionRecord.java:26-36 | The constructor stores sender, recipient, amount and incentive unchanged and leaves the id unassigned (`None`). |
| `Records.Save` | src/main/java/com/jpmc/midascore/entity/TransactionRecord.java:9-11 | Saving appends exactly one record and keeps every earlier one. The new record has the given fields and a generated id. The store's id sequence is preserved. |
| `Records.IdsUnique` | src/main/java/com/jpmc/midascore/entity/TransactionRecord.java:9-11 | Ids generated by the store are present and never reused. |
| `Transfers.FindById` | src/main/java/com/jpmc/midascore/component/KafkaTransactionListener.java:47-51 | A lookup returns a balance exactly when the id is in the repository, and that balance is the stored one. |
| `Transfers.Admit` | src/main/java/com/jpmc/midascore/component/KafkaTransactionListener.java:53-58 | Three outcomes, in the source's order. A missing user holds iff the sender or the recipient is absent. Insufficient balance holds iff both exist and the sender's balance is below the amount. Admitted holds iff both exist and the balance covers the amount. |
| `Transfers.Transfer` | src/main/java/com/jpmc/midascore/component/KafkaTransactionListener.java:63-64 | The set of users is unchanged. For distinct users the sender loses exactly `amount` and the recipient gains exactly `amount + incentive`. For a transfer to oneself the balance gains exactly `incentive`. Every other user keeps their balance. |
| `Transfers.Process` | src/main/java/com/jpmc/midascore/component/KafkaTransactionListener.java:47-72 | A dropped message leaves both repositories unchanged and returns normally, whatever the incentive. A failed incentive call leaves them unchanged and raises. On success, balances change exactly as `Transfer` says, exactly one record is appended with the transaction's sender, recipient and amount and the incentive used, earlier records are unchanged, and a sender distinct from the recipient ends non-negative. |
| `Transfers.DroppedIgnoresIncentive` | src/main/java/com/jpmc/midascore/component/KafkaTransactionListener.java:53-61 | The incentive is consulted only after both lookups and the balance check pass. A dropped message has the same effect for any reply of the incentive service. |
| `Transfers.TransactionListener.constructor` | src/main/java/com/jpmc/midascore/component/KafkaTransactionListener.java:25-33 | The listener starts over the given repositories. |
| `Transfers.TransactionListener.Listen` | src/main/java/com/jpmc/midascore/component/KafkaTransactionListener.java:41-73 | The step-by-step handler (lookups, early returns, debit, credit reading the debited balance, record append). Its outcome and the new repositories are exactly those of `Process`, and the store's id sequence is kept. |
| `Stream.StepIsRecorded` | src/main/java/com/jpmc/midascore/component/KafkaTransactionListener.java:63-72 | One message appends at most one record, keeps earlier records and the set of users, and the appended records replay to exactly the new balances. |
| `Stream.RunReplaysAuditLog` | src/main/java/com/jpmc/midascore/component/KafkaTransactionListener.java:63-72 | After any sequence of messages, earlier records are unchanged and no user is created or removed. Replaying the appended records from the old balances gives exactly the new balances, so no balance change goes unrecorded and no record lacks its change. |
| `Stream.RunKeepsIds` | src/main/java/com/jpmc/midascore/entity/TransactionRecord.java:9-11 | Over any sequence of messages, every record keeps a store-generated id. |
| `Stream.TransferTotal` | src/main/java/com/jpmc/midascore/component/KafkaTransactionListener.java:63-64 | One transfer raises the sum of all balances by exactly the incentive. The sender's loss and the recipient's gain of `amount` cancel. |
| `Stream.ReplayTotal` | src/main/java/com/jpmc/midascore/component/KafkaTransactionListener.java:63-72 | Replaying records whose users exist raises the sum of all balances by exactly the sum of their incentives. |
| `Stream.RunRecordsNameKnownUsers` | src/main/java/com/jpmc/midascore/component/KafkaTransactionListener.java:53-72 | Every record appended by a run names a sender and a recipient that exist in the repository. |
| `Stream.RunTotal` | src/main/java/com/jpmc/midascore/component/KafkaTransactionListener.java:63-72 | Money is not conserved, by design. After any sequence of messages, the sum of all balances has grown by exactly the sum of the incentives in the appended records. |
| `Stream.RunKeepsNonNegative` | src/main/java/com/jpmc/midascore/component/KafkaTransactionListener.java:58-64 | If every balance starts non-negative and every message has a non-negative amount and incentive, no balance is ever negative. |
| `Stream.NegativeAmountOverdrawsRecipient` | src/main/java/com/jpmc/midascore/component/KafkaTransactionListener.java:58-64 | The source does not check the amount's sign. Sending -5 from a user with 100 to a user with 0 passes the balance check and leaves the recipient at -5, with a record written. |
| `Stream.ExampleTransfer` | src/main/java/com/jpmc/midascore/component/KafkaTransactionListener.java:47-72 | Sender 100 and recipient 50, amount 30, incentive 2: the balances become 70 and 82, and one record (id 1, 1 to 2, amount 30, incentive 2) is appended. |

## Left out

- Parsing the JSON message (KafkaTransactionListener.java:43-44) and the Kafka listener annotations (35-39). The model starts from the parsed `Transaction`.
- Kafka redelivery, offsets, consumer groups and concurrency. `Run` handles messages one at a time, in order. The source has no deduplication guard, and none is modelled.
- `@Transactional` commit and rollback. One call of `Listen` is atomic by construction. A failure while saving (a persistence exception after the balances change) is not modelled.
- `IncentiveClient.fetchIncentive` is an HTTP POST. Its result is the `reply` parameter, and `None` stands for the call throwing. The source does not check the incentive's sign, so the model accepts any integer.
- Single-precision `float` arithmetic and rounding. Amounts are exact integers.
- The no-argument JPA constructor of `TransactionRecord` (lines 23-24) and the `@ManyToOne` references: a record holds the users' ids, not their entities.
- The concrete id values the database generates. The model numbers records 1, 2, 3, … in save order, and only uniqueness is claimed.
- `UserRecord`, `Transaction`, `Incentive` and the repository interfaces are not part of this model: users are entries of the balance map and the repositories are the map and the record sequence.
- Test utilities (`KafkaProducer`, `BalanceQuerier`, `FileLoader`): file reading, message production and HTTP balance queries.
- Transfers.Process: the sender is proved non-negative after success only when it differs from the recipient. For a transfer to oneself the balance ends at old balance plus incentive (line 64 after line 63), which is negative for a large enough negative incentive, since nothing checks the incentive's sign.
- Stream.RunKeepsNonNegative: requires non-negative amounts and incentives. The source validates neither (see `Stream.NegativeAmountOverdrawsRecipient`), so with other inputs no such invariant holds.
