/** `AccountService`: the two command handlers. Each loads the aggregate,
    runs the domain command, captures the uncommitted events, saves, and only
    then hands the captured events to the publisher, in order. */
module AccountService {
  import opened Common
  import opened Contracts
  import opened Domain
  import opened EventLog
  import opened EventStore
  import opened StoreInvariants

  const AccountNotFound := "Account not found"

  /** A completed command: the tables after the save and the events handed to
      the publisher, in publish order. */
  datatype Committed = Committed(store: Store, published: seq<Change>)

  /** The published events are exactly the rows the save appended, in the
      same order, and the rows stored before are untouched: nothing is
      published that was not saved first. */
  predicate SavedThenPublished(before: Store, c: Committed)
  {
    && |c.store.events| == |before.events| + |c.published|
    && c.store.events[..|before.events|] == before.events
    && forall k :: 0 <= k < |c.published| ==> c.store.events[|before.events| + k].data == Encoded(c.published[k])
  }

  /** Save the commanded aggregate, then publish what it had raised. */
  function SaveAndPublish(store: Store, a: Account, now: Ticks): (r: Result<Committed>)
    ensures r.Err? ==> r.error == DbUpdateException
    ensures r.Ok? ==> r.value.published == a.uncommitted && SavedThenPublished(store, r.value)
  {
    match Save(store, a, now)
    case Err(e) => Err(e)
    case Ok(saved) => Ok(Committed(saved.store, a.uncommitted))
  }

  /** `DepositAsync(accountId, amount)`: an unknown account is created on the
      spot. A rejected deposit saves and publishes nothing. */
  function DepositAsync(store: Store, id: Guid, amount: real, now: Ticks): (r: Result<Committed>)
    ensures amount <= 0.0 ==> r == Err(ArgumentException(DepositMustBePositive))
    ensures r.Err? ==> r.error == ArgumentException(DepositMustBePositive) || r.error == DbUpdateException
    ensures r.Ok? ==> SavedThenPublished(store, r.value)
    ensures r.Ok? && Load(store, id).Some? ==>
              r.value.published == [Funds(FundsDeposited(Load(store, id).value.state.id, amount, now))]
    ensures r.Ok? && Load(store, id).None? ==> r.value.published == [Funds(FundsDeposited(id, amount, now))]
  {
    var account := match Load(store, id) case Some(a) => a case None => Create(id);
    match Deposit(account, amount, now)
    case Err(e) => Err(e)
    case Ok(commanded) => SaveAndPublish(store, commanded, now)
  }

  /** `WithdrawAsync(accountId, amount)`: an unknown account is an error. A
      rejected withdrawal saves and publishes nothing. */
  function WithdrawAsync(store: Store, id: Guid, amount: real, now: Ticks): (r: Result<Committed>)
    ensures Load(store, id).None? ==> r == Err(InvalidOperationException(AccountNotFound))
    ensures Load(store, id).Some? && amount <= 0.0 ==> r == Err(ArgumentException(WithdrawMustBePositive))
    ensures Load(store, id).Some? && 0.0 < amount && Load(store, id).value.state.balance < amount ==>
              r == Err(InvalidOperationException(InsufficientFunds))
    ensures r.Ok? ==> SavedThenPublished(store, r.value)
    ensures r.Ok? ==> Load(store, id).Some?
    ensures r.Ok? && Load(store, id).Some? ==>
              r.value.published == [Funds(FundsWithdrawn(Load(store, id).value.state.id, amount, now))]
  {
    match Load(store, id)
    case None => Err(InvalidOperationException(AccountNotFound))
    case Some(account) =>
      match Withdraw(account, amount, now)
      case Err(e) => Err(e)
      case Ok(commanded) => SaveAndPublish(store, commanded, now)
  }

  /** The aggregate a command on `id` starts from, in step with a consistent
      store, with the balance of the account's full history. */
  lemma StartIsSynced(store: Store, id: Guid)
    requires Consistent(store)
    ensures var a := match Load(store, id) case Some(a) => a case None => Create(id);
            && a.state.id == id && a.uncommitted == [] && Synced(store, a)
            && a.state.balance == FullReplay(store, id).balance
  {
    if Load(store, id).Some? {
      LoadIsSynced(store, id);
    } else {
      CreateIsSynced(store, id);
    }
  }

  /** On a consistent store, an account with a non-empty history is found by
      `LoadAsync`, with the id, the full replay's balance, the history's
      length as version, and nothing uncommitted. */
  lemma LoadReturnsSaved(store: Store, id: Guid, s: AccountSnapshot, n: int)
    requires Consistent(store)
    requires s.id == id
    requires 0 < n == |History(store.events, id)|
    requires FullReplay(store, id).balance == s.balance
    ensures Load(store, id) == Some(Account(s, n, []))
  {
    var h := History(store.events, id);
    HistoryMembers(store.events, id);
    assert h[0] in h;
    QueryEmpty(store.events, id, 0);
    LoadIsSynced(store, id);
    SnapshotPlusTailIsFullReplay(store, id);
  }

  /** After saving an aggregate in step with a consistent store, the store is
      still consistent, `LoadAsync` finds the account, and both it and the full
      replay give the aggregate's balance; other accounts are untouched. */
  lemma CommittedIsDurable(store: Store, a: Account, now: Ticks)
    requires Consistent(store) && Synced(store, a)
    requires a.state.balance >= 0.0 && |a.uncommitted| > 0
    ensures SaveAndPublish(store, a, now).Ok?
    ensures var store' := SaveAndPublish(store, a, now).value.store;
            && Consistent(store')
            && FullReplay(store', a.state.id).balance == a.state.balance
            && Load(store', a.state.id).Some?
            && Load(store', a.state.id).value.state.balance == a.state.balance
            && forall other :: other != a.state.id ==> FullReplay(store', other) == FullReplay(store, other)
  {
    var id := a.state.id;
    SaveKeepsConsistent(store, a, now);
    var store' := Save(store, a, now).value.store;
    var rows := NewRows(id, a.uncommitted, a.version, now);
    SavedEvents(store, a, now);
    SavedFullReplay(store, a, now);
    var k := |store.events|;
    assert store'.events[k] == rows[0];
    QueryEmpty(store'.events, id, 0);
    SnapshotPlusTailIsFullReplay(store', id);
    forall other | other != id
      ensures FullReplay(store', other) == FullReplay(store, other)
    {
      OtherHistoriesUnchanged(store.events, rows, id, other);
    }
  }

  /** Save, then load: `LoadAsync` returns the saved aggregate with its
      events committed, that is with the same id and balance, the version
      advanced by the number of saved events, and nothing uncommitted. */
  lemma LoadAfterSave(store: Store, a: Account, now: Ticks)
    requires Consistent(store) && Synced(store, a)
    requires a.state.balance >= 0.0 && |a.uncommitted| > 0
    ensures Save(store, a, now).Ok?
    ensures Load(Save(store, a, now).value.store, a.state.id) == Some(Account(a.state, a.version + |a.uncommitted|, []))
  {
    SaveKeepsConsistent(store, a, now);
    SavedFullReplay(store, a, now);
    SavedHistoryLength(store, a, now);
    LoadReturnsSaved(Save(store, a, now).value.store, a.state.id, a.state, a.version + |a.uncommitted|);
  }

  /** A positive deposit on a consistent store always commits: the store stays
      consistent, the account's replayed balance grows by exactly the amount
      and is what `LoadAsync` now returns, and no other account changes. */
  lemma DepositCommits(store: Store, id: Guid, amount: real, now: Ticks)
    requires Consistent(store)
    requires amount > 0.0
    ensures DepositAsync(store, id, amount, now).Ok?
    ensures var store' := DepositAsync(store, id, amount, now).value.store;
            && Consistent(store')
            && FullReplay(store', id).balance == FullReplay(store, id).balance + amount
            && Load(store', id).Some?
            && Load(store', id).value.state.balance == FullReplay(store, id).balance + amount
            && forall other :: other != id ==> FullReplay(store', other) == FullReplay(store, other)
  {
    StartIsSynced(store, id);
    var a := match Load(store, id) case Some(a) => a case None => Create(id);
    DepositKeepsSynced(store, a, amount, now);
    CommittedIsDurable(store, Deposit(a, amount, now).value, now);
  }

  /** A positive withdrawal of an existing account that its replayed balance
      covers always commits, and takes exactly the amount off that balance. */
  lemma WithdrawCommits(store: Store, id: Guid, amount: real, now: Ticks)
    requires Consistent(store)
    requires Load(store, id).Some?
    requires 0.0 < amount <= FullReplay(store, id).balance
    ensures WithdrawAsync(store, id, amount, now).Ok?
    ensures var store' := WithdrawAsync(store, id, amount, now).value.store;
            && Consistent(store')
            && FullReplay(store', id).balance == FullReplay(store, id).balance - amount
            && Load(store', id).Some?
            && Load(store', id).value.state.balance == FullReplay(store, id).balance - amount
            && forall other :: other != id ==> FullReplay(store', other) == FullReplay(store, other)
  {
    StartIsSynced(store, id);
    var a := Load(store, id).value;
    WithdrawKeepsSynced(store, a, amount, now);
    CommittedIsDurable(store, Withdraw(a, amount, now).value, now);
  }

  /** On a consistent store, a withdrawal fails exactly when the account has
      no history, the amount is not positive, or the replayed balance does not
      cover it. */
  lemma WithdrawFailsOnlyWhenRejected(store: Store, id: Guid, amount: real, now: Ticks)
    requires Consistent(store)
    ensures WithdrawAsync(store, id, amount, now).Err? <==>
              Load(store, id).None? || amount <= 0.0 || FullReplay(store, id).balance < amount
  {
    StartIsSynced(store, id);
    if Load(store, id).Some? && 0.0 < amount <= FullReplay(store, id).balance {
      WithdrawCommits(store, id, amount, now);
    }
  }

  /** An account whose only stored row does not decode still loads, since a
      row exists, but as `new AccountAggregate()` with nothing replayed and
      so with the empty id: a deposit on it is raised, saved and published
      for `Guid.Empty`, not for the requested account. (For the empty id
      itself, the new row would clash with the stored one.) */
  lemma UndecodableAccountDepositsToEmptyId(id: Guid, t: Ticks)
    requires id != EmptyGuid
    ensures var store := Store([EventRecord(id, Undecodable, t, 1)], map[]);
            var r := DepositAsync(store, id, 10.0, t);
            && Load(store, id) == Some(Account(AccountSnapshot(EmptyGuid, 0.0), 0, []))
            && r.Ok?
            && r.value.published == [Funds(FundsDeposited(EmptyGuid, 10.0, t))]
  {
    var row := EventRecord(id, Undecodable, t, 1);
    var log := [row];
    assert log[1..] == [];
    assert OfAggregate(log, id) == log;
    assert Above(log, 0) == log;
    assert SortByVersion(log) == Insert(row, []) == log;
    assert DecodeAll(log) == [];
  }
}
