# Event-sourced account ledger, in Dafny

This project models the core of an event-sourced, CQRS bank-account service.

**Write side.** An `AccountAggregate` accepts `Deposit` and `Withdraw` commands. It records each accepted command as a `FundsDeposited` or `FundsWithdrawn` event and rebuilds its balance by replaying those events. `AccountService` loads the aggregate, runs the command, saves the new events and then publishes them. `EventStoreRepository` stores the events in an `Events` table whose unique (AggregateId, Version) index rejects a clashing write. It also stores a snapshot of the account every fifth version. Loading starts from the snapshot and replays only the newer events.

**Read side.** Three projectors consume the published events:
- a balance view, written identically by `AccountBalanceProjector` and `AccountProjector`;
- an append-only transaction history;
- a loyalty score that integrates the balance over time and picks a membership tier from the average balance.

Modules, in dependency order:

| file | module | what it holds |
|---|---|---|
| common.dfy | `Common` | ids, time in ticks, `TotalDays`, `Option`, `Result`, the exceptions |
| contracts.dfy | `Contracts` | the two integration events and their signed amounts |
| domain.dfy | `Domain` | `AggregateRoot` and `AccountAggregate`: apply, replay, commands, snapshots |
| event_log.dfy | `EventLog` | event rows, payload decoding, the filter and version ordering of the load query |
| event_store.dfy | `EventStore` | `SaveAsync` and `LoadAsync` |
| store_invariants.dfy | `StoreInvariants` | the invariant that saves preserve; snapshot + tail equals full replay |
| service.dfy | `AccountService` | `DepositAsync` and `WithdrawAsync` |
| balance_projection.dfy | `BalanceProjection` | the account balance view |
| transaction_history.dfy | `TransactionHistory` | the transaction history view |
| loyalty.dfy | `Loyalty` | the loyalty score and tier |

Modelling choices:
- Amounts are `real`, so arithmetic is exact.
- Instants are `int` ticks (100 ns). `TimeSpan.TotalDays` is the tick count divided by 864 000 000 000, exactly.
- Guids are `int`, and `Guid.Empty` is `0`.
- An aggregate is one immutable value `Account(state, version, uncommitted)`.
- Its state is the `AccountSnapshot(Id, Balance)` record itself, which is what `GetSnapshot` returns and `LoadSnapshot` restores.
- An event object handed to `Apply` is `Funds(event)`, or `Unrecognized` for any other deserialised type. The account's switch ignores `Unrecognized`, but replay still counts it in the version.
- A stored payload is `Encoded(change)`, or `Undecodable` when its type name does not resolve or its JSON deserialises to null.
- A snapshot's data is `None` when it deserialises to null.
- The tables are a sequence of event rows in insertion order plus a map of snapshots by aggregate id.
- The exceptions the command side throws are `Err` values of a `Result`.
- Values the source draws from the clock (`DateTime.UtcNow`) or from `Guid.NewGuid()` are parameters. One `now` serves a whole service call.

Central results:
- `StoreInvariants.SnapshotPlusTailIsFullReplay`: the balance `LoadAsync` rebuilds from a faithful snapshot plus the later events equals the balance of replaying the whole stored history.
- `StoreInvariants.SaveKeepsConsistent`: saving a loaded, commanded aggregate keeps the tables consistent. Consistent means all of:
  - keys are unique;
  - every row decodes to its own account's event;
  - each history is numbered 1..n;
  - every snapshot is faithful;
  - no account's full history replays to a negative balance.
- `AccountService.LoadAfterSave`: loading right after a save returns the aggregate with its events committed.
- `AccountService.DepositCommits` and `AccountService.WithdrawCommits`: a command that the domain accepts commits, moves the replayed balance by exactly the amount, and leaves every other account alone.
- `BalanceProjection.ViewAgreesWithReplay`: for one account's events whose first is a deposit, projected into an empty table, the read model's balance equals the aggregate's replayed balance.
- `TransactionHistory.LedgerTotalIsNetAmount`: the ledger's signed total equals the events' net amount.
- `Loyalty.ScoreIsTimeWeightedBalance`: for in-order events, the loyalty score is exactly the time-weighted integral of the balance.

Where the code and the written design differ, the model follows the code:
- `SaveAsync` does no optimistic-concurrency check. Only the unique index stops a clashing write, which `Save` models as `Err(DbUpdateException)` with nothing written.
- `LoadAsync` skips undecodable rows silently. The version advances by the number of queried rows that decode, not by the number of rows (`EventStore.UndecodableRowsAreSkipped`, `EventStore.SkipExample`).
- The projectors do not de-duplicate redelivered messages. A message delivered twice gives two history rows that differ only in their fresh `Id` (and, when the message has no id, in `ReferenceId`) (`TransactionHistory.RedeliveryIsRecordedTwice`).
- After `SaveAsync`, the in-memory aggregate keeps its old `Version`, because the code only clears its uncommitted events. `Save` returns it that way.
- `LoadAsync` on an account with a snapshot but no later events returns the hydrated aggregate. It returns null exactly when the start version is 0 and no event of the account lies above version 0. The start version is 0 when there is no snapshot row, when the row's data deserialises to null (`EventStore.NullSnapshotIsIgnored`), or when the snapshot is at version 0.
- An account whose stored rows all fail to decode, and which has no snapshot that deserialises at a version above 0, still loads, because rows exist. It loads as `new AccountAggregate()` with nothing replayed, so its id is `Guid.Empty`. A deposit on it is then raised, saved and published for `Guid.Empty`, not for the requested account (`AccountService.UndecodableAccountDepositsToEmptyId`). With such a snapshot the account loads from it instead, with its own id.
- A late event, one older than the last event seen, accrues no score but still moves `LastEventTimestamp` back (`Loyalty.LateEventMovesLastBack`).

## Model

| member | source | states |
|---|---|---|
| Domain.Apply | src/Services/Account.Command/Account.Command.Domain/AccountAggregate.cs:44-57 | A funds event sets the id to its account and moves the balance by the signed amount; any other object leaves the state unchanged |
| Domain.Replay | src/Services/Account.Command/Account.Command.Domain/AggregateRoot.cs:20-26 | Replaying a run adds its net amount to the balance; the id stays when every event is the account's own, and becomes the first event's account when all events share it |
| Domain.ApplyChange | src/Services/Account.Command/Account.Command.Domain/AggregateRoot.cs:33-44 | A new event is queued and leaves the version alone; a replayed event is not queued and bumps the version |
| Domain.LoadFromHistory | src/Services/Account.Command/Account.Command.Domain/AggregateRoot.cs:20-26 | Loading a history raises the version by its length, queues nothing, and reaches the replayed state |
| Domain.Blank | src/Services/Account.Command/Account.Command.Domain/AccountAggregate.cs:9-12 | `new AccountAggregate()` is at version 0 with nothing uncommitted, the empty id and a zero balance |
| Domain.Create | src/Services/Account.Command/Account.Command.Domain/AccountAggregate.cs:14-17 | `new AccountAggregate(id)` is at version 0 with nothing uncommitted, the given id and a zero balance |
| Domain.ClearEvents | src/Services/Account.Command/Account.Command.Domain/AggregateRoot.cs:15-18 | Clearing empties the uncommitted list and keeps state and version; its effect after a save is what `AccountService.LoadAfterSave` reloads (nothing uncommitted) |
| Domain.HydrateFromSnapshot | src/Services/Account.Command/Account.Command.Domain/AggregateRoot.cs:52-56 | Hydrating restores the snapshot's state and takes its version; uncommitted events are kept |
| Domain.SnapshotRoundTrip | src/Services/Account.Command/Account.Command.Domain/AccountAggregate.cs:59-70 | Loading a taken snapshot into any instance restores id and balance and keeps that instance's version |
| Domain.Deposit | src/Services/Account.Command/Account.Command.Domain/AccountAggregate.cs:19-27 | Fails, with the positive-amount message, exactly when the amount is not positive; otherwise it adds the amount and queues one deposit of the account's id |
| Domain.Withdraw | src/Services/Account.Command/Account.Command.Domain/AccountAggregate.cs:29-42 | Fails exactly when the amount is not positive or exceeds the balance, with the matching exception and message; otherwise it subtracts the amount and queues one withdrawal |
| Domain.CommandsKeepBalanceNonNegative | src/Services/Account.Command/Account.Command.Domain/AccountAggregate.cs:29-42 | From a non-negative balance, an accepted deposit raises the balance and an accepted withdrawal lowers it but keeps it non-negative |
| Domain.CommandExamples | tests/Account.Command.Domain.Tests/Account.Command.Domain.Tests.cs:11-65 | 100 into a new account gives 100 and one event; withdrawing 40 then gives 60; withdrawing 100 from 50 fails with "Insufficient funds" |
| EventLog.SortPermutes | src/Services/Account.Command/Account.Command.Infrastructure/Repositories/EventStoreRepository.cs:108-111 | Ordering by version returns a permutation of the queried rows |
| EventLog.SortIsSorted | src/Services/Account.Command/Account.Command.Infrastructure/Repositories/EventStoreRepository.cs:108-111 | Ordering by version returns the rows in ascending version order |
| EventLog.DecodeAll | src/Services/Account.Command/Account.Command.Infrastructure/Repositories/EventStoreRepository.cs:118-131 | Never longer than the rows; when all rows decode, one change each, in order; any undecodable row makes the result shorter |
| EventLog.DecodeAllSnoc | src/Services/Account.Command/Account.Command.Infrastructure/Repositories/EventStoreRepository.cs:118-131 | Adding a row at the end adds its change when it decodes and nothing otherwise; with the empty case this fixes the result on every log, so decoding is an order-preserving filter |
| EventLog.DecodedCount | src/Services/Account.Command/Account.Command.Infrastructure/Repositories/EventStoreRepository.cs:118-131 | The number of decoded changes equals the independently counted number of rows that decode |
| EventLog.HistorySplit | src/Services/Account.Command/Account.Command.Infrastructure/Repositories/EventStoreRepository.cs:108-111 | An account's stored history is its rows up to version v followed by exactly what the load query reads after v |
| EventStore.NewRows | src/Services/Account.Command/Account.Command.Infrastructure/Repositories/EventStoreRepository.cs:37-52 | The rows written for n events carry the aggregate's id, the events in order, the save time and versions Version+1 .. Version+n |
| EventStore.ClashIsOccupied | src/Services/Account.Command/Account.Command.Infrastructure/Data/Migrations/20251227071447_InitialCreate.cs:45-49 | A new row clashes with the unique (AggregateId, Version) index exactly when a stored row of the aggregate has a version in the range being assigned |
| EventStore.Save | src/Services/Account.Command/Account.Command.Infrastructure/Repositories/EventStoreRepository.cs:20-85 | Fails with DbUpdateException exactly on a key clash, writing nothing; otherwise it appends the numbered rows after the untouched old ones, upserts the aggregate's snapshot exactly when the new version is a multiple of 5, keeps other snapshots, and clears the uncommitted events |
| EventStore.SaveKeepsKeysUnique | src/Services/Account.Command/Account.Command.Infrastructure/Data/Migrations/20251227071447_InitialCreate.cs:45-49 | A successful save keeps the (AggregateId, Version) keys unique |
| EventStore.LoadBase | src/Services/Account.Command/Account.Command.Infrastructure/Repositories/EventStoreRepository.cs:89-106 | Replay starts from the snapshot's state and version when its data deserialises, otherwise from a blank aggregate at version 0 |
| EventStore.Load | src/Services/Account.Command/Account.Command.Infrastructure/Repositories/EventStoreRepository.cs:87-135 | Null exactly when the start version is 0 (no snapshot, null data, or a version-0 snapshot) and no row of the account lies above version 0; otherwise the state is the replay of the decoded rows after the start version, and the version counts them |
| EventStore.QueryEmpty | src/Services/Account.Command/Account.Command.Infrastructure/Repositories/EventStoreRepository.cs:108-116 | The load query is empty exactly when no row of the account lies above the start version |
| EventStore.UndecodableRowsAreSkipped | src/Services/Account.Command/Account.Command.Infrastructure/Repositories/EventStoreRepository.cs:118-133 | The loaded version is the start version plus the number of queried rows that decode; any undecodable row leaves it below the start version plus the number of queried rows |
| EventStore.SkipExample | src/Services/Account.Command/Account.Command.Infrastructure/Repositories/EventStoreRepository.cs:108-134 | Deposits of 10 and 5 stored around an undecodable row load as balance 15 at version 2 |
| EventStore.ZeroSnapshotLoadsNothing | src/Services/Account.Command/Account.Command.Infrastructure/Repositories/EventStoreRepository.cs:96-116 | A snapshot at version 0 leaves the start version at 0, so with no events the load is null even though the snapshot deserialises |
| EventStore.NullSnapshotIsIgnored | src/Services/Account.Command/Account.Command.Infrastructure/Repositories/EventStoreRepository.cs:96-116 | A snapshot row whose data is null leaves the start version at 0, so with no events the load is null |
| StoreInvariants.SnapshotPlusTailIsFullReplay | src/Services/Account.Command/Account.Command.Infrastructure/Repositories/EventStoreRepository.cs:92-133 | With faithful snapshots, the balance rebuilt from snapshot + later events equals the replay of the whole stored history |
| StoreInvariants.EmptyStoreIsConsistent | src/Services/Account.Command/Account.Command.Infrastructure/Data/Migrations/20251227071447_InitialCreate.cs:14-49 | The freshly created, empty tables satisfy the invariant |
| StoreInvariants.HistoryMembers | src/Services/Account.Command/Account.Command.Infrastructure/Repositories/EventStoreRepository.cs:108-111 | A row is in an account's history exactly when it is a stored row of that account with a positive version |
| StoreInvariants.TailIsSuffix | src/Services/Account.Command/Account.Command.Infrastructure/Repositories/EventStoreRepository.cs:103-111 | In a well-formed, contiguous store, the load query is the suffix of the history after the start version |
| StoreInvariants.LoadIsSynced | src/Services/Account.Command/Account.Command.Infrastructure/Repositories/EventStoreRepository.cs:87-135 | On a consistent store, a loaded account has the requested id and no uncommitted events, and is in step with its history in version and balance |
| StoreInvariants.CreateIsSynced | src/Services/Account.Command/Account.Command.Application/AccountService.cs:19-23 | When nothing loads, a new account under that id is in step with the store |
| StoreInvariants.DepositKeepsSynced | src/Services/Account.Command/Account.Command.Domain/AccountAggregate.cs:19-27 | An accepted deposit keeps an aggregate in step with the store |
| StoreInvariants.WithdrawKeepsSynced | src/Services/Account.Command/Account.Command.Domain/AccountAggregate.cs:29-42 | An accepted withdrawal keeps an aggregate in step with the store |
| StoreInvariants.SyncedSaveSucceeds | src/Services/Account.Command/Account.Command.Infrastructure/Repositories/EventStoreRepository.cs:37-52 | Saving an aggregate in step with a well-formed, contiguous store never clashes with the unique index |
| StoreInvariants.HistoryAfterSave | src/Services/Account.Command/Account.Command.Infrastructure/Repositories/EventStoreRepository.cs:37-52 | A save appends exactly the new rows to the account's history and leaves its prefixes up to the old version unchanged |
| StoreInvariants.OtherHistoriesUnchanged | src/Services/Account.Command/Account.Command.Infrastructure/Repositories/EventStoreRepository.cs:39-52 | Rows of one account leave every other account's history, and its prefixes, unchanged |
| StoreInvariants.SavedHistoryLength | src/Services/Account.Command/Account.Command.Infrastructure/Repositories/EventStoreRepository.cs:37-52 | After a save, the account's history is as long as the old version plus the saved events |
| StoreInvariants.SaveKeepsContiguous | src/Services/Account.Command/Account.Command.Infrastructure/Repositories/EventStoreRepository.cs:37-52 | A save keeps every account's history numbered 1, 2, ..., n |
| StoreInvariants.SaveKeepsRowsWellFormed | src/Services/Account.Command/Account.Command.Infrastructure/Repositories/EventStoreRepository.cs:39-52 | A save keeps every stored row at a positive version, decodable, and an event of its own account |
| StoreInvariants.WrittenSnapshotSound | src/Services/Account.Command/Account.Command.Infrastructure/Repositories/EventStoreRepository.cs:54-81 | The snapshot written at a multiple of 5 is of its own account, at the whole new history's version, with that history's balance |
| StoreInvariants.KeptSnapshotSound | src/Services/Account.Command/Account.Command.Infrastructure/Repositories/EventStoreRepository.cs:54-81 | A snapshot that the save does not rewrite stays sound after the rows are appended |
| StoreInvariants.SaveKeepsSnapshots | src/Services/Account.Command/Account.Command.Infrastructure/Repositories/EventStoreRepository.cs:54-81 | Every snapshot after a save is sound |
| StoreInvariants.SavedFullReplay | src/Services/Account.Command/Account.Command.Infrastructure/Repositories/EventStoreRepository.cs:20-85 | After a save, replaying the account's whole history gives the saved aggregate's balance |
| StoreInvariants.SaveKeepsNonNegative | src/Services/Account.Command/Account.Command.Infrastructure/Repositories/EventStoreRepository.cs:20-85 | Saving an aggregate with a non-negative balance keeps every replayed balance non-negative |
| StoreInvariants.SaveKeepsConsistent | src/Services/Account.Command/Account.Command.Infrastructure/Repositories/EventStoreRepository.cs:20-85 | Saving an in-step aggregate with a non-negative balance succeeds and keeps the whole invariant |
| AccountService.SaveAndPublish | src/Services/Account.Command/Account.Command.Application/AccountService.cs:28-35 | Only a successful save publishes; what it publishes is exactly the captured uncommitted events, in order, and they are the rows just appended |
| AccountService.DepositAsync | src/Services/Account.Command/Account.Command.Application/AccountService.cs:17-36 | A non-positive amount fails with nothing saved; a success saves before publishing exactly one deposit, for the loaded account or for a new account under the requested id |
| AccountService.UndecodableAccountDepositsToEmptyId | src/Services/Account.Command/Account.Command.Infrastructure/Repositories/EventStoreRepository.cs:87-134 | For any id other than the empty id, an account whose only row does not decode loads as a blank aggregate with the empty id, and a deposit on it publishes `FundsDeposited` for the empty id |
| AccountService.WithdrawAsync | src/Services/Account.Command/Account.Command.Application/AccountService.cs:38-56 | An unknown account fails with "Account not found"; then the amount and funds checks apply; a success saves before publishing exactly one withdrawal |
| AccountService.StartIsSynced | src/Services/Account.Command/Account.Command.Application/AccountService.cs:19-23 | The aggregate a command starts from is in step with the store and has the full history's balance |
| AccountService.CommittedIsDurable | src/Services/Account.Command/Account.Command.Application/AccountService.cs:28-35 | Saving and publishing an in-step aggregate keeps the store consistent; both load and full replay then give its balance, and other accounts' replays are unchanged |
| AccountService.LoadReturnsSaved | src/Services/Account.Command/Account.Command.Infrastructure/Repositories/EventStoreRepository.cs:87-135 | On a consistent store, an account with a non-empty history loads with its id, the full replay's balance, its history length as version, and nothing uncommitted |
| AccountService.LoadAfterSave | src/Services/Account.Command/Account.Command.Infrastructure/Repositories/EventStoreRepository.cs:20-135 | Save then load returns the aggregate with its events committed: same state, version advanced by the saved events, nothing uncommitted |
| AccountService.DepositCommits | src/Services/Account.Command/Account.Command.Application/AccountService.cs:17-36 | A positive deposit on a consistent store commits, keeps it consistent, adds exactly the amount to the replayed and loaded balance, and changes no other account |
| AccountService.WithdrawCommits | src/Services/Account.Command/Account.Command.Application/AccountService.cs:38-56 | A positive withdrawal covered by an existing account's balance commits, keeps the store consistent, subtracts exactly the amount, and changes no other account |
| AccountService.WithdrawFailsOnlyWhenRejected | src/Services/Account.Command/Account.Command.Application/AccountService.cs:38-56 | On a consistent store a withdrawal fails exactly when the account is unknown, the amount is not positive, or the balance does not cover it |
| BalanceProjection.Project | src/Services/Account.Read/Account.Read.Api/Consumers/AccountBalanceProjector.cs:21-53 | A deposit upserts the view, adding the amount and one to the version; a withdrawal updates only an existing view and never creates one; no other view changes |
| BalanceProjection.ProjectAllOneAccount | src/Services/Account.Read/Account.Read.Api/Consumers/AccountProjector.cs:22-54 | Folding one account's events, whose view exists or whose first event is a deposit, moves the balance by their net amount and the version by their count |
| BalanceProjection.ViewIsDepositsMinusWithdrawals | src/Services/Account.Read/Account.Read.Api/Consumers/AccountBalanceProjector.cs:21-53 | From an empty table, an account whose first event is a deposit gets version = number of events and balance = deposits minus withdrawals |
| BalanceProjection.LeadingWithdrawalsDropped | src/Services/Account.Read/Account.Read.Api/Consumers/AccountBalanceProjector.cs:42-52 | Withdrawals of an account that reach the table before it has a view are dropped: projecting the run equals projecting what follows them |
| BalanceProjection.EarlyWithdrawalExample | src/Services/Account.Read/Account.Read.Api/Consumers/AccountBalanceProjector.cs:21-52 | A withdrawal of 5 before the first deposit of 10 is dropped, and the deposit creates the view at balance 10, version 1 |
| BalanceProjection.WithdrawalsAloneCreateNoView | src/Services/Account.Read/Account.Read.Api/Consumers/AccountBalanceProjector.cs:42-52 | Without a deposit, an account's withdrawals never create its view |
| BalanceProjection.OtherAccountsUntouched | src/Services/Account.Read/Account.Read.Api/Consumers/AccountProjector.cs:22-54 | Events of other accounts leave a view, and its presence, unchanged |
| BalanceProjection.ViewAgreesWithReplay | src/Services/Account.Read/Account.Read.Api/Consumers/AccountProjector.cs:22-54 | For one account's events whose first is a deposit, projected into an empty table, the projected balance equals the balance the aggregate reaches by replaying the same events |
| BalanceProjection.ViewCanGoNegative | src/Services/Account.Read/Account.Read.Api/Consumers/AccountBalanceProjector.cs:43-47 | The view applies a withdrawal larger than its balance: 10 in, then 50 out, gives -40 |
| BalanceProjection.ProjectionExamples | tests/Account.Read.Tests/AccountBalanceProjectorTests.cs:30-73 | The two projector tests' balances: 100 into an absent account gives 100, and 50 out of 200 gives 150. The versions (1 and 2) and the third case, where a withdrawal for an absent account leaves the table empty, follow the projector code, not the tests |
| TransactionHistory.Record | src/Services/Account.Read/Account.Read.Api/Consumers/TransactionHistoryProjector.cs:21-53 | Appends exactly one row: Credit for a deposit and Debit for a withdrawal, the unsigned amount, the event's time, the message id or else a fresh id; its signed amount is the event's delta |
| TransactionHistory.RecordAllAppends | src/Services/Account.Read/Account.Read.Api/Consumers/TransactionHistoryProjector.cs:25-52 | The history is append-only: old rows are kept, and one row per delivery is added, in delivery order |
| TransactionHistory.LedgerTotalIsNetAmount | src/Services/Account.Read/Account.Read.Api/Consumers/TransactionHistoryProjector.cs:25-51 | The signed total of the recorded rows grows by exactly the net amount of the delivered events |
| TransactionHistory.RedeliveryIsRecordedTwice | src/Services/Account.Read/Account.Read.Api/Consumers/TransactionHistoryProjector.cs:25-35 | A message delivered twice, each time with a fresh row id, yields two rows. They differ in `Id` and agree on account, amount, type and timestamp, and on `ReferenceId` when the message has an id |
| TransactionHistory.FreshIdsKeepKeysUnique | src/Services/Account.Read/Account.Read.Api/Consumers/TransactionHistoryProjector.cs:25-52 | When each delivery draws an id no earlier row or delivery has, the recorded rows keep their primary key unique |
| TransactionHistory.HistoryExamples | tests/Account.Read.Tests/TransactionHistoryProjectorTests.cs:29-71 | A deposit of 100 gives a Credit row of 100; a withdrawal of 50 gives a Debit row of 50, not -50 |
| Loyalty.TierBands | src/Services/Account.Read/Account.Read.Api/Consumers/LoyaltyProjector.cs:84-97 | Platinum exactly above an average of 5000; Gold exactly in (1000, 5000]; Standard exactly at or below 1000 |
| Loyalty.TierMonotone | src/Services/Account.Read/Account.Read.Api/Consumers/LoyaltyProjector.cs:84-97 | A higher average never gives a lower tier |
| Loyalty.UpdateLoyaltyScore | src/Services/Account.Read/Account.Read.Api/Consumers/LoyaltyProjector.cs:47-99 | Only this account's row changes. The balance moves by the delta, the first time is kept, the last time becomes the event time. The score grows by balance × elapsed days only when time moved forward. The tier is recomputed from score / days-since-first only when that span is positive |
| Loyalty.ProjectLoyalty | src/Services/Account.Read/Account.Read.Api/Consumers/LoyaltyProjector.cs:35-45 | Deposits raise and withdrawals lower the loyalty balance by the amount; only that account's row changes |
| Loyalty.FirstEventScoresNothing | src/Services/Account.Read/Account.Read.Api/Consumers/LoyaltyProjector.cs:49-62 | An account's first event creates a Standard row with a zero score, first = last = the event time, and the event's delta as balance |
| Loyalty.ScoreNeverDecreases | src/Services/Account.Read/Account.Read.Api/Consumers/LoyaltyProjector.cs:65-71 | While the balance is non-negative, an update never lowers the score |
| Loyalty.LateEventMovesLastBack | src/Services/Account.Read/Account.Read.Api/Consumers/LoyaltyProjector.cs:65-77 | An event older than the last one accrues nothing but moves the last-event time back |
| Loyalty.InOrderStep | src/Services/Account.Read/Account.Read.Api/Consumers/LoyaltyProjector.cs:64-77 | An in-order event accrues the balance over the elapsed days and moves the balance by its delta |
| Loyalty.ScoreIsTimeWeightedBalance | src/Services/Account.Read/Account.Read.Api/Consumers/LoyaltyProjector.cs:47-99 | For one account's in-order events, the score grows by exactly the independently defined time-weighted integral of the balance; the balance moves by the net amount; first is kept and last is the latest time |
| Loyalty.ScoreFromFirstEvent | src/Services/Account.Read/Account.Read.Api/Consumers/LoyaltyProjector.cs:49-77 | For one account's events delivered in time order, starting from its first event, the score is the balance integrated since that event and the balance is the events' net amount |
| Loyalty.TierFollowsAverage | src/Services/Account.Read/Account.Read.Api/Consumers/LoyaltyProjector.cs:78-98 | After any run of an account's events, in any order, whose last event is later than the first-event time, the tier is the band of the final score divided by the days from the first event to that last event |
| Loyalty.DepositsOnlyNeverLowerScore | src/Services/Account.Read/Account.Read.Api/Consumers/LoyaltyProjector.cs:65-74 | Non-negative deposits, at any times, never lower the score or the balance |
| Loyalty.LoyaltyExamples | tests/Account.Read.Tests/LoyaltyProjectorTests.cs:29-87 | 1000, then 500 ten days later: score 10000, average exactly 1000, still Standard; 6000, then 0 ten days later: Platinum |

## Left out

- Kafka publishing, MassTransit consumption, hosting, controllers and topic setup are left out. They are I/O. Publishing appears only as the ordered list of published events.
- Asynchrony, cancellation tokens and logging are left out. None of them changes a result.
- Concurrency is left out. Each call is one atomic step on immutable tables. Interleaved requests and the missing optimistic-concurrency check are not modelled beyond the unique-index clash.
- The C# `decimal` type's 28-digit precision and its overflow are left out, because amounts are exact reals.
- Loyalty: the `double` rounding of `TimeSpan.TotalDays` and its `(decimal)` cast are left out. Days are an exact ratio of ticks.
- JSON serialisation is left out: type names, `Type.GetType`, and exceptions thrown by malformed JSON. A row either decodes (`Encoded`) or is skipped (`Undecodable`); a throwing deserialiser is not modelled.
- The random primary key of each event row and `SnapshotEntity.AggregateType` are left out. Nothing reads them.
- The first loop of `SaveAsync` (lines 24-35) is left out. It builds entities and discards them.
- `EventStoreDbContext.cs` declares only the `Events` set, yet the repository uses `_context.Snapshots`. The model follows the repository and the migration, which creates the `Snapshots` table keyed by aggregate id.
- A new account's `Create(id)` starts at version 0. `AccountService` never saves an aggregate without events, so the rule that a save at a version that is a multiple of 5 writes a snapshot even with no new rows is modelled but never exercised by the service lemmas.
- The read side's `Program.cs` registers only `AccountProjector`. All four projectors are modelled, as each would behave when consuming the published stream.
- `AggregateRoot.Version` is a 32-bit `int` (AggregateRoot.cs line 8), as is the stored `Version` column. The model's versions are unbounded integers, so wrap-around past 2^31 - 1 events of one account is not modelled.
- `Guid.NewGuid()` in the history projector is modelled as values supplied with each delivery (`rowId`, `fallbackId`). Their freshness is a precondition of `TransactionHistory.FreshIdsKeepKeysUnique`, not a property of `Record`.
- Projector writes are modelled as one atomic step per message. A failing `SaveChangesAsync` on the read side is not modelled.
- Loyalty.ScoreIsTimeWeightedBalance: states the score only for events delivered in time order. Out-of-order delivery is covered by `Loyalty.LateEventMovesLastBack` alone.
- BalanceProjection.ProjectAllOneAccount: covers an account whose view exists or whose first event is a deposit. Withdrawals that come before an absent account's first deposit are dropped, by `BalanceProjection.LeadingWithdrawalsDropped`. The rest of the run then starts with a deposit and falls under this lemma. An account whose events are all withdrawals never gets a view, by `BalanceProjection.WithdrawalsAloneCreateNoView`.
