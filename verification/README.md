# Commerce: the in-memory order store and order placement

A Dafny model of two coupled parts of the commerce reference application:

- **the in-memory transactional order store** (`storage/memory_*.go`, opened by `storage/database.go`, used through
  `storage/order_repository.go`): shared committed records, connections that each own at most one open transaction, an
  overlay of staged inserts per transaction, and a commit that re-checks every staged key (first committer wins);
- **order placement** (`orders/service.go`, over `inventory`, `payments` and the repository): allocate an ID, reserve
  stock, multiply, authorize, save, and give the stock back when the payment or the save is refused. Every call that a
  mutex protects is one step, and the steps of any number of placements interleave.

`dafny verify dfyconfig.toml` checks the whole project.

## How the model is built

Every operation is first a function on values (`InsertIn`, `CommitIn`, `ReserveIn`, `PlaceIn`, …). Two things are
proved against these functions:

- the **classes**, which have the program's fields and update them in place as the program does, with its loops, early
  returns and order of checks: `MemoryDriver`, `OrderRepository`, `Inventory`, `Payments`, `Orders`, `MigrationRunner`;
- the **state machines**, which lift the functions to any number of connections, placements, migrators or threads, and
  over whose runs the main theorems quantify: `MemoryStore.Run`, `Saga.After`, `Migration.After`,
  `LockOrder.Scheduled`.

The state machines are tied back to the functions that the classes implement: `Uninterrupted.PlaceAloneIsPlaceIn` and
`SagaSteps.StoreIsRun` for the saga, `MigrationAlone.MigratesAlone` for the migrations. Beside the safety of every run,
`SagaSteps` and `MigrationAlone` say what every move does in every reachable state, so that nothing gets stuck.

| file | contents |
|---|---|
| `Records.dfy`, `Sums.dfy`, `Text.dfy` | orders, error kinds, 64-bit integers; totals; trimming, field splitting, identifiers |
| `MemoryStore.dfy` | views, the store as a state machine, lifecycle, append-only isolation, autocommit |
| `Serializability.dfy`, `Atomicity.dfy`, `Isolation.dfy`, `SingleConnection.dfy` | what runs of the store mean |
| `Statements.dfy`, `MemoryDriver.dfy`, `OrderRepository.dfy`, `RoundTrip.dfy` | statements and arguments, the driver objects, save and find |
| `Inventory.dfy`, `Payments.dfy`, `Orders.dfy` | the three services |
| `Saga.dfy`, `SagaInvariant.dfy`, `SagaTheorems.dfy`, `SagaWitnesses.dfy`, `SagaPermanence.dfy`, `SagaSteps.dfy`, `Uninterrupted.dfy` | interleaved placements |
| `Migration.dfy`, `MigrationRunner.dfy`, `MigrationAlone.dfy` | the migration registry and the runner |
| `LockOrder.dfy` | deadlock freedom |
| `Receipts.dfy` | the receipt validation |

## Assumptions about code that is not part of the model

- `data.Manager.Within` (`vendor/github.com/spice-framework/spice/data/transaction.go:100-164`) commits when its callback
  returns nil and rolls back when it returns an error or panics. The saga assumes even less: the owner of a transaction
  may end it at any time and in either way.
- `migration.NewPlan` (`vendor/github.com/spice-framework/spice/migration/migration.go:69-92`) orders a plan by version
  and refuses a shared version. `Run` of the same file is part of the model.
- `database/sql` hands out at most as many connections as the pool allows, converts `int` arguments to `int64`, refuses
  an executor whose transaction has ended without reaching the driver, and rolls a transaction back when the context
  it was begun with is cancelled.
- `int` has 64 bits. Text is a sequence of Unicode code points. A map is visited in an arbitrary order.
- Whether a context is cancelled is a free choice at every point where the program looks at it.

## Where the program keeps less than one might expect

Each of these is a theorem with the exact condition.

- The store ignores the isolation level it is asked for. Commit-order serializability holds on any number of
  connections except for lookups that missed; every run is fully serializable if and only if the pool hands out at most
  one connection (`SerializableIffOneConnection`; two connections admit a write skew). `NewDatabase` sets one.
- An insert within a transaction never checks that the schema is present, so an autocommit insert is the same as
  begin, insert, commit exactly when it is (`AutocommitEquivalence`); it always is over a new database.
- `place` does not check the multiplication. A committed order can carry a wrong total in some run if and only if
  some sellable quantity's product with the price exceeds 64 bits (`MischargesIff`; `WrappedTotal` commits 2^62 + 1
  units at four cents for four cents). When the initial stock at the unit price fits 64 bits, no total ever wraps.
- An order whose transaction is rolled back after `place` has returned keeps its stock and its approval: in every
  extension of the run neither stock nor ledger is exact again (`NeverExactAgain`). In each run the stock is exact if
  and only if every completed order is committed (`StockExactIffAllCommitted`), which always holds for placement through
  the pool. Once every transaction has ended and every placement is finished, a difference is final (`LossesAreFinal`).
  Stock is lost in some run, and lost for ever, if and only if the shop can sell anything (`LosesStockIff`,
  `LosesStockForEverIff`; `DroppedOrder` is the run).
- An approval is never voided, neither for a dropped order nor when the save is refused. In each run the ledger is exact
  if and only if every approval belongs to a committed order (`LedgerExactIffAllUsed`). A ledger that differs for ever
  arises in some run if and only if the shop can sell anything (`UnbalancesLedgerIff`; `RefusedSaveLeavesApproval` and
  `DroppedOrderLeavesApproval` are the runs, the first with exact stock).
- `Save` accepts an ID with surrounding whitespace and `Find` trims it, so such an order is never found under its ID; every
  other saved order is (`SaveFindRoundTrip`, `UntrimmedSaveIsAccepted`). The IDs of the saga have none.

## Model

| member | source | states |
|---|---|---|
| Text.TrimSpaceNormalizes | storage/order_repository.go:74-87 | trimming yields text without surrounding whitespace and is the identity exactly on such text |
| Text.IsSpaceIff | storage/order_repository.go:74 | whitespace is exactly the Unicode White_Space code points |
| Text.TrimSpaceIff | storage/order_repository.go:74 | a text is trimmed to t if and only if t has no surrounding whitespace and the text is t with whitespace around it: nothing else is taken away |
| Text.BlankIff | storage/order_repository.go:85-90 | nothing is left of a text if and only if it is all whitespace |
| Text.FieldsKeepTheWords | storage/memory_connection.go:185-187 | splitting loses nothing but whitespace, and every field is a non-empty word |
| Text.FieldsOfJoin | storage/memory_connection.go:185-187 | splitting joined words gives the words back |
| Text.FieldsIffLayout | storage/memory_connection.go:185-187 | the fields of a statement are the words of which it is a layout, with any whitespace around them and some between them |
| Text.JoinIsLayout | storage/memory_connection.go:185-187 | a normalized statement has one space between its words and none around them |
| Text.NormalizeIdempotent | storage/memory_connection.go:185-187 | normalizing a normalized statement changes nothing |
| Text.NormalizeEqualIffSameFields | storage/memory_connection.go:56-78 | two statements normalize equal if and only if their fields are equal |
| Text.PadSixDenotes | orders/service.go:151 | a printed counter with minimum width six denotes the counter, at every magnitude |
| Text.PadSixIff | orders/service.go:151 | the printed counter is the only digit string that denotes it with at least six digits and no leading zero beyond them |
| Text.OrderIDIff | orders/service.go:147-152 | an order ID is its prefix and the printed counter, and no other text |
| Text.PaymentIDIff | payments/service.go:65-66 | a payment ID is its prefix and the printed counter, and no other text |
| Text.FirstIdentifiers | orders/service.go:151 | the first order is order-000001 and the first payment is payment-000001 |
| Records.WrapExact | orders/service.go:103 | 64-bit arithmetic is congruent modulo 2^64, and exact exactly for 64-bit results |
| Text.OrderIDsInjective | orders/service.go:147-152 | two order IDs are equal if and only if their counters are |
| Text.PaymentIDsInjective | payments/service.go:65-66 | two payment IDs are equal if and only if their counters are |
| Text.IdentifiersTrimmed | orders/service.go:147-152 | printed identifiers are non-blank and have no surrounding whitespace, so trimming keeps them |
| Statements.ArgumentsRoundTrip | storage/memory_connection.go:158-183 | a record survives encoding into arguments and decoding if and only if its numbers fit 64 bits |
| Statements.ArgumentsIff | storage/memory_connection.go:158-183 | the arguments that are read as a record are exactly its encoding; any other number or types are refused |
| Statements.ExecuteOutcome | storage/memory_connection.go:48-68 | what every statement does in any layout, and that all others are refused without effect |
| Statements.QueryOutcome | storage/memory_connection.go:70-98 | a lookup takes the find statement and one text; every other query is refused with its kind of error |
| Statements.StatementsDistinct | storage/order_sql.go:9-32 | the three statements have three different normal forms |
| Statements.DispatchIgnoresLayout | storage/memory_connection.go:48-98 | a statement with the fields of another one has the same answer and effect, whatever its layout |
| Statements.StatementsMean | storage/memory_connection.go:48-98 | the insert statement inserts the encoded record, the find statement returns the looked-up row, the create statement creates the schema, none is taken for another |
| Statements.OnlyCreateTableMigrates | storage/memory_connection.go:56-67 | a statement without arguments succeeds if and only if it is the create-table statement in some layout |
| MemoryStore.StepKeepsLifecycle | storage/memory_connection.go:27-42 | after every step a transaction is not done exactly when it is the current one of its connection |
| MemoryStore.RunExtends | storage/memory_transaction.go:27-40 | in every run committed records are never changed or removed, the schema never reverts, ended transactions stay ended |
| MemoryStore.EndedOnlyOnce | storage/memory_transaction.go:22-53 | after a transaction has ended, whatever runs next, ending it again is refused and changes nothing |
| MemoryStore.FindReadsThrough | storage/memory_connection.go:141-156 | a lookup is a lookup in the committed records overlaid with the connection's own staged ones; without the schema it can only answer with a staged one |
| MemoryStore.InsertOutcome | storage/memory_connection.go:113-139 | an insert is accepted exactly for an ID the connection does not see, within a transaction or with the schema; it then shows exactly the new record and touches no shared state within a transaction |
| MemoryStore.CreateSchemaOutcome | storage/memory_connection.go:100-111 | creating the schema touches no record and takes effect at once or with the commit |
| MemoryStore.OpeningEffect | storage/memory_connection.go:27-42 | a connection can always be opened, a transaction on exactly the connections without one; nothing else changes |
| MemoryStore.WorkEffect | storage/memory_connection.go:100-156 | on any connection of any number, the step has the answer and the view of the operation |
| MemoryStore.StagedWorkIsInvisible | storage/memory_connection.go:113-128 | one step inside an open transaction changes neither the shared state nor the view of any other connection |
| Isolation.InvisibleUntilCommitted | storage/memory_connection.go:113-156 | in any run in which transaction t does not commit, everything done inside t can be left out: every other action gets the same answer, and records, schema, connections and all other transactions end the same |
| Isolation.FindsCommittedOrOwn | storage/memory_connection.go:141-156 | in every run every lookup answers from the committed records overlaid with the inserts that the connection's own open transaction saw accepted |
| MemoryStore.OnlyCommitsChangeRecords | storage/memory_transaction.go:27-40 | the committed records change only by a commit, which adds exactly its staged, all new records, or by an accepted autocommit insert |
| MemoryStore.EndEffect | storage/memory_transaction.go:16-55 | a commit succeeds if and only if no staged key is committed yet; every end closes the transaction and frees its connection |
| MemoryStore.AutocommitEquivalence | storage/memory_connection.go:113-139 | an insert outside a transaction equals uninterrupted begin, insert, commit or rollback if and only if the schema is present |
| MemoryStore.SchemaAlwaysReady | storage/database.go:39 | over a new database the schema is present in every run |
| Serializability.CommitOrderSerializable | storage/memory_transaction.go:16-41 | on any number of connections, the serial run in commit order ends with the committed records and gives every insert outcome and every found record |
| Serializability.HistoriesConsistent | storage/memory_transaction.go:16-41 | the invariant behind it, for open transactions too; with at most one connection, missed lookups are explained as well |
| Serializability.AnswersAreRecorded | storage/memory_connection.go:113-156 | the histories record every answer as it was given, and a commit lists the log of its transaction |
| Serializability.WriteSkewNotSerializable | storage/memory_connection.go:27-42 | two overlapping transactions that each miss the other's insert both commit, and no serial order explains them |
| Serializability.SerializableIffOneConnection | storage/database.go:39-42 | every run is serializable if and only if there is at most one connection |
| Atomicity.AllOrNothing | storage/memory_transaction.go:16-55 | whatever runs between begin and end, the end adds exactly the records whose insertion the transaction saw accepted, or nothing; a commit fails exactly when one of them exists by then |
| SingleConnection.StepRefines | storage/memory_connection.go:113-156 | each step on one connection agrees with a plain map that is copied at begin and restored at rollback; staged and committed keys stay disjoint |
| SingleConnection.RunRefines | storage/database.go:39-42 | every operation sequence gets the same replies from both, missed lookups included |
| SingleConnection.CommitNeverFindsDuplicates | storage/memory_transaction.go:27-33 | over one connection the duplicate branch of a commit is unreachable |
| MemoryDriver.MemoryDatabase.constructor | storage/database.go:38-44 | a new database has no records, no applied migration, and the schema |
| MemoryDriver.MemoryTransaction.Commit | storage/memory_transaction.go:16-41 | refused without effect when not open; otherwise ends and does what the commit function says, for every visiting order of the staged keys |
| MemoryDriver.MemoryTransaction.CopyInto | storage/memory_transaction.go:37 | the copy in any order is the union of the maps |
| MemoryDriver.MemoryTransaction.Rollback | storage/memory_transaction.go:43-55 | drops the overlay and ends the transaction; refused without effect when not open |
| MemoryDriver.MemoryConnection.BeginTx | storage/memory_connection.go:27-42 | opens a fresh, empty transaction; refused for a cancelled context or an open transaction |
| MemoryDriver.MemoryConnection.CreateSchema | storage/memory_connection.go:100-111 | marks the open transaction, or sets the shared flag |
| MemoryDriver.MemoryConnection.Insert | storage/memory_connection.go:113-139 | new view and result are those of the insert function; nothing else changes |
| MemoryDriver.MemoryConnection.Find | storage/memory_connection.go:141-156 | the result is that of the find function on the connection's view |
| MemoryDriver.MemoryConnection.ExecContext | storage/memory_connection.go:48-68 | dispatches on the normalized statement, with every error case |
| MemoryDriver.MemoryConnection.QueryContext | storage/memory_connection.go:70-98 | a fresh cursor over exactly the matching rows, or the error |
| MemoryDriver.MemoryRows.Next | storage/memory_rows.go:19-26 | moves the next row into the destination, as much as fits, and consumes it; false and no change at the end |
| OrderRepository.Save | storage/order_repository.go:38-67 | new state and result are those of the save function, through validation, encoding and the driver, also for a nil executor and for one of an ended transaction |
| OrderRepository.FindOrder | storage/order_repository.go:70-101 | the result is that of the find function: the first row is read through the cursor and decoded, a second row is refused, a nil executor too |
| OrderRepository.SaveIsInsert | storage/order_repository.go:38-67 | a save succeeds exactly when the context holds, the record is valid and the driver accepts it, then inserts exactly the record, and changes nothing otherwise |
| OrderRepository.SaveOutcome | storage/order_repository.go:38-67 | which answer every save gets; a duplicate is reported as such exactly when the driver is asked, the connection sees the ID, and the context holds afterwards |
| OrderRepository.SaveWithoutConnection | storage/order_repository.go:48-60 | without a connection nothing is saved, and which refusal is given |
| OrderRepository.FindReturnsVisible | storage/order_repository.go:70-101 | finding a trimmed ID returns the visible record, field by field |
| OrderRepository.FindIgnoresWhitespace | storage/order_repository.go:74-78 | with any whitespace around it, a visible ID is found all the same |
| OrderRepository.FindRefuses | storage/order_repository.go:74-81 | a blank ID and a cancelled context are reported as errors, exactly when they hold, and never as a missing order |
| OrderRepository.FindTrims | storage/order_repository.go:74-78 | a lookup of an ID is the lookup of the trimmed ID |
| RoundTrip.SaveFindRoundTrip | storage/order_repository.go:38-101 | on any number of connections: after any run, a successful save, and any later run in which no rollback of the save's transaction is accepted and its commit is not refused as a duplicate, finding the ID on that connection returns exactly the saved record, if and only if the ID has no surrounding whitespace |
| RoundTrip.SecondSaveIsDuplicate | storage/order_repository.go:57-59 | under the same conditions a second save of the ID on that connection is refused as a duplicate and changes nothing |
| RoundTrip.OnlyRollbackDrops | storage/database.go:39-42 | over the pool's one connection the saved record is kept if and only if every rollback of its transaction comes after a commit of it |
| RoundTrip.RollbacksRefusedIff | storage/memory_transaction.go:16-55 | on any number of connections, no rollback of an open transaction is accepted in a run if and only if every one comes after a commit of it |
| RoundTrip.UntrimmedSaveIsAccepted | storage/order_repository.go:85-92 | a concrete record whose ID starts with a space is saved |
| RoundTrip.RunKeepsOwnIDs | storage/memory_connection.go:113-139 | in every run each record is stored and staged under its own ID |
| Inventory.NewService | inventory/service.go:27-40 | exactly a non-blank product and a non-negative stock are accepted; the stock is sound and holds the trimmed product |
| Inventory.Service.Reserve | inventory/service.go:43-68 | takes the quantity when it is available, and changes nothing otherwise |
| Inventory.Service.Release | inventory/service.go:71-87 | adds the quantity, in 64-bit arithmetic, to a configured product only |
| Inventory.Service.Audit | inventory/service.go:92-108 | succeeds exactly on sound stock, in any visiting order |
| Inventory.Service.VerifySKU | inventory/service.go:114-132 | succeeds exactly for configured products with non-negative stock |
| Inventory.ReserveOutcome | inventory/service.go:43-68 | which answer every reservation gets, and that it takes exactly the quantity of the one product |
| Inventory.ReleaseOutcome | inventory/service.go:71-87 | a release is accepted exactly for a configured product and adds the quantity modulo 2^64 |
| Inventory.ReleaseUndoesReserve | inventory/service.go:43-87 | a release right after a reservation restores the stock exactly |
| Payments.NewService | payments/service.go:29-37 | exactly a positive maximum is accepted; the ledger starts empty |
| Payments.Service.Authorize | payments/service.go:40-72 | appends one approval with the next ID, or changes nothing |
| Payments.AuthorizeOutcome | payments/service.go:40-72 | which answer every payment gets, and that it leaves at most one approval, numbered by its position |
| Orders.NewService | orders/service.go:38-70 | exactly a named product with a positive price and all dependencies present are accepted |
| Orders.NewServices | orders/service.go:38-70 | exactly the valid configurations are accepted; placement starts with the whole stock, an empty ledger and counter zero |
| Orders.Service.AllocateID | orders/service.go:147-152 | increments the counter and prints it |
| Orders.Service.Place | orders/service.go:87-145 | stock, ledger, counter, view and result are those of the place function, compensation included, for every executor: nil, of an ended transaction, or reaching a connection |
| Orders.PlaceAllOrNothing | orders/service.go:87-145 | success is exactly one reservation, one matching approval and one new record; failure leaves stock and records as they were, and an approval only when the save failed; a double failure never happens |
| Orders.PlaceSucceedsIff | orders/service.go:87-145 | a placement completes if and only if nothing is cancelled, the stock suffices, the total is within the policy and the executor reaches a connection where its ID is free |
| Orders.PlaceRefusals | orders/service.go:92-143 | which refusal every placement gets: insufficient stock, a declined or invalid payment and an invalid quantity exactly when they hold, and otherwise the refusal of the save |
| Orders.NilLikeDone | orders/service.go:127-142 | a nil executor and one of an ended transaction have the same effect, and only the error may differ |
| Saga.UnsavedIDIsNew | orders/service.go:147-152 | an ID allocated to an unfinished placement is nowhere among the records |
| SagaInvariant.RunKeeps | orders/service.go:87-145 | stock, ledger, counters, records and overlays match the placements after every run of interleaved placements and transactions |
| SagaInvariant.SaveAccepted | orders/service.go:127 | the save of an authorized placement is always valid, fits 64 bits and has a new ID, so the driver accepts it |
| SagaInvariant.SaveThroughIsSaveIn | storage/order_repository.go:38-67 | the save step of the saga is the repository's save on that connection |
| Uninterrupted.PlaceAloneIsPlaceIn | orders/service.go:87-145 | from any reachable state the steps of one placement in a row, over the free connection it is handed or within its transaction, open or ended, have the result and the effect of the place operation |
| Uninterrupted.PlacedAloneIff | orders/service.go:87-145 | in reachable states the ID is always free, so such an uninterrupted placement completes if and only if its executor still reaches a connection and the context, the stock and the policy allow it |
| SagaSteps.Assemble | orders/service.go:38-70 | the services and the database that are put together for a valid configuration start exactly in the initial state of the saga |
| SagaSteps.StoreIsRun | internal/spicegen/commerce/spice_http_route_orders_controller_place_595331ef4208_gen.go:56-64 | in every run the store of the saga is the run of the store machine with exactly the owners' actions and one insert for each accepted save |
| SagaSteps.SagaIsSerializable | storage/memory_transaction.go:16-41 | so the committed orders of the saga are those of a serial execution in commit order |
| SagaSteps.CommitPublishesOrders | internal/spicegen/commerce/spice_http_route_orders_controller_place_595331ef4208_gen.go:56-64 | from every reachable state the commit of any open transaction ends it, frees its connection, and makes every order placed within it found on every connection |
| SagaSteps.EveryPlacementFinishes | orders/service.go:87-145 | from every reachable state every placement, wherever it stands, comes to its end by its own moves; it completes if and only if what it still has to do succeeds; no other placement is touched |
| SagaSteps.OnlyItsOwnPlacement | orders/service.go:87-145 | no move changes a placement but its own, nor any quantity or executor |
| SagaTheorems.CompensationNeverFails | orders/service.go:106-136 | always 0 <= stock <= initial stock, the audit passes, and releasing what any placement holds succeeds exactly: both double-failure branches are unreachable |
| SagaTheorems.IdentifiersUnique | orders/service.go:147-152 | no two placements share an ID, every saved ID was allocated, no commit meets a duplicate |
| SagaTheorems.CommittedOrdersFound | storage/order_repository.go:70-101 | in every run every committed order is found by its ID on every connection, as it was saved |
| SagaTheorems.SaveNeverDuplicates | storage/order_repository.go:53-60 | the save of a placement fails only for its context, never as a duplicate |
| SagaTheorems.StockConserved | orders/service.go:87-145 | stock, reservations in flight, committed orders, orders staged in open transactions and orders dropped after success always add up to the initial stock |
| SagaTheorems.StockExactIffAllCommitted | orders/service.go:87-145 | without the staged and dropped orders the sum is exact if and only if every completed order is committed |
| SagaTheorems.PooledStockExact | orders/service.go:73-75 | it is exact in every state when all placements save through the pool |
| SagaTheorems.EveryOrderApprovedOnce | orders/service.go:103-126 | every completed placement, committed, staged or dropped, and every committed order has exactly one approval, with its ID, reference and total; different ones have different approvals |
| SagaTheorems.LedgerBalances | payments/service.go:63-71 | the approved amounts are the totals of the committed orders plus those of approvals without committed order |
| SagaTheorems.LedgerExactIffAllUsed | payments/service.go:63-71 | the approved amounts are at least the totals of the committed orders, and equal to them if and only if every approval belongs to a committed order |
| SagaTheorems.CommittedTotals | orders/service.go:103-126 | every committed total is the 64-bit product, within the policy, for a quantity within the initial stock |
| SagaTheorems.TotalsExact | orders/service.go:100-104 | when initial stock times price fits 64 bits, no total of any placement wraps, and the committed totals together are at most that product |
| SagaWitnesses.MischargesIff | orders/service.go:103 | a wrong total is committed in some run if and only if a sellable quantity's product exceeds 64 bits |
| SagaWitnesses.WrappedTotal | orders/service.go:103 | a concrete configuration in which it happens |
| SagaWitnesses.DroppedOrder | internal/spicegen/commerce/spice_http_route_orders_controller_place_595331ef4208_gen.go:56-64 | for every sellable quantity, a run whose one transaction is rolled back after the placement returned loses stock |
| SagaWitnesses.LosesStockIff | internal/spicegen/commerce/spice_http_route_orders_controller_place_595331ef4208_gen.go:56-64 | stock is lost in some run if and only if the shop can sell anything |
| SagaPermanence.NeverExactAgain | internal/spicegen/commerce/spice_http_route_orders_controller_place_595331ef4208_gen.go:56-64 | after an order was dropped, stock and ledger are not exact in any extension of the run; after an approved placement failed, the ledger is not |
| SagaPermanence.LossesAreFinal | internal/spicegen/commerce/spice_http_route_orders_controller_place_595331ef4208_gen.go:56-64 | when all transactions have ended and all placements are finished, a difference in stock or ledger is there in every extension of the run |
| SagaPermanence.LosesStockForEverIff | internal/spicegen/commerce/spice_http_route_orders_controller_place_595331ef4208_gen.go:56-64 | stock is lost for ever in some run if and only if the shop can sell anything |
| SagaPermanence.RefusedSaveLeavesApproval | orders/service.go:127-142 | for every sellable quantity, a run whose save is refused settles with exact stock and an approval that no order uses |
| SagaPermanence.DroppedOrderLeavesApproval | internal/spicegen/commerce/spice_http_route_orders_controller_place_595331ef4208_gen.go:56-64 | the run of a dropped order settles with a ledger above the committed totals |
| SagaPermanence.UnbalancesLedgerIff | payments/service.go:63-71 | the ledger differs from the committed orders for ever in some settled run if and only if the shop can sell anything |
| Migration.ExecutedEffect | storage/memory_migration_session.go:22-29 | a migration statement is accepted exactly when it is the create-table statement, and then only marks the transaction |
| Migration.ReconcilesIffPrefix | vendor/github.com/spice-framework/spice/migration/migration.go:245-281 | a registry reconciles with a plan if and only if it is an exact prefix of the plan's lines, checksums included |
| Migration.MigrationSafe | storage/memory_migration_session.go:22-40 | for any interleaving of migrators and clients, with or without the schema at first: registered versions ascend, so none is registered twice; the registry is an exact prefix of some plan; a registered entry implies the schema; one migrator at a time is at work; the plan of each successful migrator begins the registry |
| Migration.SuccessfulPlansAgree | vendor/github.com/spice-framework/spice/migration/migration.go:166-215 | of two migrators that succeed in one run, the plan of one begins the plan of the other |
| Migration.RegistryIsThePlan | vendor/github.com/spice-framework/spice/migration/migration.go:189-207 | at the moment a migrator succeeds the registry is exactly its plan; a migrator whose plan the registry does not begin is refused and changes nothing |
| Migration.RegistryOnlyGrows | storage/memory_migration_session.go:30-39 | in every run the registry only ever gains a committed entry of a version above all others; a failing move leaves it; the schema never reverts |
| Migration.OneEntryRegisteredOnce | storage/database.go:85-104 | any number of migrators with the application's one entry register it at most once, and exactly once when one of them succeeded |
| MigrationRunner.Database.Apply | storage/memory_migration_session.go:22-40 | registers the entry with the schema present, exactly for an accepted statement in an uncancelled context; otherwise changes nothing |
| MigrationRunner.Reconcile | vendor/github.com/spice-framework/spice/migration/migration.go:245-281 | the line-by-line comparison accepts exactly the registries that are prefixes of the plan |
| MigrationRunner.Database.Migrate | storage/database.go:78-106 | a registry that does not begin the plan is refused as it is; otherwise the registry becomes the plan up to the first entry that does not run, with success exactly when all run |
| MigrationRunner.MigrateAgain | vendor/github.com/spice-framework/spice/migration/migration.go:166-215 | whatever a migration came to, the next one with the same plan resumes where it stopped, and completes if and only if the rest runs |
| Migration.LineIff | storage/memory_migration_session.go:35-38 | a registered line says the version, module, name and checksum of its entry |
| MigrationAlone.MigratesAlone | vendor/github.com/spice-framework/spice/migration/migration.go:166-215 | from every reachable state a migrator that gets the lock, or holds it at whatever point, comes to its end by its own moves: if the registry begins its plan, the plan is registered up to the first entry that does not run, with success exactly when all do; otherwise it is refused and nothing changes |
| MigrationAlone.ClientsAct | storage/memory_connection.go:48-98 | what clients do outside a migrator's transaction is carried out as it is |
| MigrationAlone.StartsUnmigrated | storage/database.go:39 | at first nothing is registered, and the schema is there or not, as told |
| LockOrder.NeutralProgram | storage/memory_migration_backend.go:28-30 | every sequence of operations keeps the lock order and gives back every lock |
| LockOrder.SomeoneCanStep | storage/memory_transaction.go:20-26 | while threads keep the order and one is unfinished, some thread can step |
| LockOrder.DeadlockFree | storage/memory_connection.go:113-150 | any threads running any operations under any schedule: some thread can step until all are done, and every step brings the end nearer |
| LockOrder.RaceFree | storage/memory_connection.go:113-150 | in every schedule no two threads are about to work on the data of the same lock |
| LockOrder.CallUses | orders/service.go:87-152 | exactly what each operation works on, branch by branch, and so which locks it takes |
| LockOrder.AttemptUses | storage/memory_migration_session.go:22-40 | the same for each way in which a migration entry can go |
| LockOrder.LaunchStarts | storage/memory_migration_backend.go:28-30 | every thread starts with nothing held and all of its calls before it |
| LockOrder.PoolSaveBreaksTheOrder | orders/service.go:127 | within a transaction, saving through the pool instead of the given executor would break the order exactly when the save is reached |
| LockOrder.SelfWaitIsForever | orders/service.go:77-85 | a thread whose next lock is one it holds never moves again under any schedule |
| LockOrder.NestedRouteGetsStuckIff | orders/service.go:77-127 | a route whose placement saved through the pool would come to a point from which no schedule moves it, exactly when it gets as far as saving |
| Receipts.CheckIdentifier | notifications/notifier.go:124-139 | the character loop accepts exactly the safe identifiers |
| Receipts.ValidateReceipt | notifications/notifier.go:113-122 | accepts exactly receipts of safe identifiers with positive quantity and total |
| Receipts.ReceiptValidIff | notifications/notifier.go:113-122 | every committed order passes the validation, for counters within 64 bits, if and only if the configured product is a safe identifier |

## Left out

- HTTP routes, JSON binding, authorization, interceptors, the server lifecycle and generated wiring: only the fact that
  the route places an order within one transaction is kept.
- PostgreSQL, SMTP, mail messages, receipt delivery, the event topic with its view counter, and the catalog cache.
- Prepared statements, ping, close, URL parsing, configuration binding and the build-quality tools.
- Error texts and wrapping (errors are kinds), logging, the time stamps of the registry, nil receivers and nil contexts, panics.
- `migration.NewPlan` and the computation of checksums, which are taken as given with each entry; the observers of the runner.
- `Available`, `Approved`, `Catalog`, `Mode` and `AppliedMigrations` as operations: they only return a field.
- The wrap-around of the order counter and of the ledger length after 2^63 steps: both are natural numbers.
- A second order service, or a restarted one, over the same database: IDs would start again at one.
- A nil executor in the interleaved saga: there the executor of an ended transaction stands for it (`Orders.NilLikeDone`).
- The locks inside `database/sql`, and the thread in which it rolls a cancelled transaction back.
- The sharing of reader locks: they are exclusive in `LockOrder`, which only makes waiting more frequent.
- Text that is not valid UTF-8.
- Saga and store steps assume that every critical section is atomic; that the mutexes make them so is not modelled.
